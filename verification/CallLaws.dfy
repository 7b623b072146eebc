/** When each call of the programmer is refused and why, and what one carried out leaves, told by the state's
    own fields and by the names in the patch. */
module CallLaws {
  import opened Prelude
  import opened ChannelMap
  import opened ParameterModel
  import opened Faders
  import opened ChannelValues
  import opened ProgrammerModel
  import opened Staging
  import opened FanShapes
  import opened ProgrammerSteps
  import opened ProgrammerRuns
  import opened ProgrammerReach

  // ---------------------------------------------------------------- targets

  /** The caller has not seen the present revision. */
  predicate Outdated(s: ProgState, expected: Option<nat>)
  {
    expected.Some? && expected.value != s.revision
  }

  /** The target is a patched fixture, or a cell of one. */
  predicate There(profiles: Profiles, t: Target)
  {
    t.entry in profiles && (t.cell != "" ==> exists i :: 0 <= i < |profiles[t.entry].model.cells| && profiles[t.entry].model.cells[i].id == t.cell)
  }

  ghost predicate AllThere(profiles: Profiles, ts: seq<Target>)
  {
    forall i :: 0 <= i < |ts| ==> There(profiles, ts[i])
  }

  /** What is wrong with a target that is not there: its fixture, or its cell. */
  function Missing(profiles: Profiles, t: Target): ProgError
  {
    if t.entry in profiles then NoSuchCell else NoSuchFixture
  }

  /** Target i is the first that is not there; past the last where all are. */
  predicate FirstGone(profiles: Profiles, ts: seq<Target>, i: int)
  {
    0 <= i <= |ts| && (i < |ts| ==> !There(profiles, ts[i])) && forall j :: 0 <= j < i ==> There(profiles, ts[j])
  }

  /** e is what is wrong with the first target that is not there. */
  ghost predicate FirstMissing(profiles: Profiles, ts: seq<Target>, e: ProgError)
  {
    exists i :: FirstGone(profiles, ts, i) && i < |ts| && e == Missing(profiles, ts[i])
  }

  lemma {:induction false} FirstBadAt(profiles: Profiles, ts: seq<Target>) returns (i: nat)
    ensures FirstGone(profiles, ts, i) && FirstBad(profiles, ts) == if i < |ts| then Some(Missing(profiles, ts[i])) else None
  {
    i := 0;
    if ts != [] && There(profiles, ts[0]) {
      var at := FirstBadAt(profiles, ts[1..]);
      i := at + 1;
      hide There;
      assert forall j :: 0 < j < |ts| ==> ts[j] == ts[1..][j - 1];
    }
  }

  lemma GoneIs(profiles: Profiles, ts: seq<Target>, i: nat)
    requires FirstGone(profiles, ts, i)
    ensures AllThere(profiles, ts) <==> i == |ts|
    ensures forall e :: FirstMissing(profiles, ts, e) <==> i < |ts| && e == Missing(profiles, ts[i])
  {
    hide There, Missing;
    forall e ensures FirstMissing(profiles, ts, e) <==> i < |ts| && e == Missing(profiles, ts[i]) {
      if k :| FirstGone(profiles, ts, k) && k < |ts| && e == Missing(profiles, ts[k]) {
        assert k == i;
      }
    }
  }

  /** Targets are looked up in order, by a selection and by a request alike. */
  lemma FirstBadIs(profiles: Profiles, ts: seq<Target>)
    ensures forall e :: FirstBad(profiles, ts) == Some(e) <==> FirstMissing(profiles, ts, e)
    ensures FirstBad(profiles, ts).None? <==> AllThere(profiles, ts)
  {
    var i := FirstBadAt(profiles, ts);
    GoneIs(profiles, ts, i);
  }

  lemma {:induction false} MatchedUpTo(profiles: Profiles, ts: seq<Target>, attribute: string, n: nat) returns (i: nat)
    requires n <= |ts|
    ensures i <= n && (i < n ==> !There(profiles, ts[i])) && forall j :: 0 <= j < i ==> There(profiles, ts[j])
    ensures if i < n then MatchTargets(profiles, ts, attribute, n) == Err(Missing(profiles, ts[i])) else MatchTargets(profiles, ts, attribute, n).Ok?
  {
    i := 0;
    if n > 0 {
      i := MatchedUpTo(profiles, ts, attribute, n - 1);
      if i == n - 1 {
        MatchTargetThere(profiles, ts[n - 1], attribute, MatchTargets(profiles, ts, attribute, n - 1).value);
        if There(profiles, ts[n - 1]) {
          i := n;
        }
      }
      hide There, MatchTarget, Missing;
    }
  }

  lemma MatchTargetThere(profiles: Profiles, t: Target, attribute: string, sofar: Matched)
    ensures if There(profiles, t) then MatchTarget(profiles, t, attribute, sofar).Ok?
            else MatchTarget(profiles, t, attribute, sofar) == Err(Missing(profiles, t))
  {
    hide MatchParams;
  }

  lemma MatchMissing(profiles: Profiles, ts: seq<Target>, attribute: string)
    ensures forall e :: MatchTargets(profiles, ts, attribute, |ts|) == Err(e) <==> FirstMissing(profiles, ts, e)
    ensures MatchTargets(profiles, ts, attribute, |ts|).Ok? <==> AllThere(profiles, ts)
  {
    var i := MatchedUpTo(profiles, ts, attribute, |ts|);
    GoneIs(profiles, ts, i);
  }

  // ---------------------------------------------------------------- the selection after a call

  /** x comes up in ts, and y not before it nor there. */
  ghost predicate Earlier<T(!new)>(ts: seq<T>, x: T, y: T)
  {
    exists i :: 0 <= i < |ts| && ts[i] == x && y !in ts[..i + 1]
  }

  ghost predicate Precedes<T(!new)>(s: seq<T>, x: T, y: T)
  {
    exists i, j :: 0 <= i < j < |s| && s[i] == x && s[j] == y
  }

  /** Those of s that are in now stand in now in the order of s. */
  ghost predicate OrderKept<T(!new)>(s: seq<T>, now: seq<T>)
  {
    forall x, y :: x in s && y in s && Precedes(now, x, y) ==> Precedes(s, x, y)
  }

  /** What ts does not name stands in now in the order of s. */
  ghost predicate UnnamedInOrder<T(!new)>(s: seq<T>, ts: seq<T>, now: seq<T>)
  {
    forall x, y :: x !in ts && y !in ts && Precedes(now, x, y) ==> Precedes(s, x, y)
  }

  /** What stands in now behind the first n comes up in ts in that order. */
  ghost predicate ByComingUp<T(!new)>(ts: seq<T>, now: seq<T>, n: nat)
  {
    forall i, j :: n <= i < j < |now| ==> Earlier(ts, now[i], now[j])
  }

  /** The selection a call leaves: the targets named, in the order they come up; with the ones there were in
      front of them; what there was without them; what there was, turned over; all fixtures; or nothing. */
  ghost predicate SelectedBy(s: ProgState, action: SelectAction, ts: seq<Target>, now: seq<Target>)
  {
    NoRepeats(now) &&
    match action
    case SelectSet => (forall x :: x in now <==> x in ts) && ByComingUp(ts, now, 0)
    case SelectAdd => s.selection <= now && (forall x :: x in now <==> x in s.selection || x in ts) && ByComingUp(ts, now, |s.selection|)
    case SelectRemove => (forall x :: x in now <==> x in s.selection && x !in ts) && OrderKept(s.selection, now)
    case SelectToggle => (forall x :: x in now <==> (x in s.selection) == (multiset(ts)[x] % 2 == 0)) && UnnamedInOrder(s.selection, ts, now)
    case SelectAll => |now| == |s.order| && forall i :: 0 <= i < |now| ==> now[i].entry == s.order[i] && now[i].cell == ""
    case SelectNone => now == []
    case SelectOther => true
  }

  lemma {:induction false} CountIs(ts: seq<Target>, x: Target)
    ensures Count(ts, x) == multiset(ts)[x]
  {
    if ts != [] {
      CountIs(ts[..|ts| - 1], x);
      assert ts == ts[..|ts| - 1] + [ts[|ts| - 1]];
    }
  }

  lemma {:induction false} AddedByComingUp(sel: seq<Target>, action: SelectAction, ts: seq<Target>)
    requires NoRepeats(sel) && (action.SelectSet? || action.SelectAdd?)
    ensures ByComingUp(ts, Picked(sel, action, ts), |sel|)
  {
    if ts != [] {
      var init, t := ts[..|ts| - 1], ts[|ts| - 1];
      AddedByComingUp(sel, action, init);
      PickedIs(sel, action, init);
      ComesUpLast(sel, Picked(sel, action, init), init, t);
      assert init + [t] == ts;
    }
  }

  lemma ComesUpLast(sel: seq<Target>, now: seq<Target>, ts: seq<Target>, t: Target)
    requires sel <= now && NoRepeats(now) && (forall x :: x in now <==> x in sel || x in ts) && ByComingUp(ts, now, |sel|)
    ensures ByComingUp(ts + [t], Added(now, t), |sel|)
  {
    var all, next := ts + [t], Added(now, t);
    forall i, j | |sel| <= i < j < |next| ensures Earlier(all, next[i], next[j]) {
      if j < |now| {
        assert Earlier(ts, now[i], now[j]);
        var k :| 0 <= k < |ts| && ts[k] == now[i] && now[j] !in ts[..k + 1];
        assert all[k] == ts[k] && all[..k + 1] == ts[..k + 1];
      } else {
        NotBefore(now, |sel|, i);
        assert now[i] in ts;
        var k :| 0 <= k < |ts| && ts[k] == now[i];
        assert all[k] == ts[k] && all[..k + 1] == ts[..k + 1];
        assert t !in ts[..k + 1];
      }
    }
  }

  lemma NotBefore(now: seq<Target>, n: nat, i: nat)
    requires NoRepeats(now) && n <= i < |now|
    ensures now[i] !in now[..n]
  {}

  lemma {:induction false} RemovedInOrder(sel: seq<Target>, ts: seq<Target>)
    requires NoRepeats(sel)
    ensures OrderKept(sel, Picked(sel, SelectRemove, ts))
  {
    if ts != [] {
      var init, t := ts[..|ts| - 1], ts[|ts| - 1];
      RemovedInOrder(sel, init);
      PickedIs(sel, SelectRemove, init);
      OneRemoved(Picked(sel, SelectRemove, init), t);
    }
  }

  lemma {:induction false} ToggledInOrder(sel: seq<Target>, ts: seq<Target>)
    ensures UnnamedInOrder(sel, ts, Picked(sel, SelectToggle, ts))
  {
    if ts != [] {
      var init, t := ts[..|ts| - 1], ts[|ts| - 1];
      ToggledInOrder(sel, init);
      assert init + [t] == ts;
      OneToggled(Picked(sel, SelectToggle, init), t);
    }
  }

  lemma OneToggled(sel: seq<Target>, t: Target)
    ensures forall x, y :: x != t && y != t && Precedes(Toggled(sel, t), x, y) ==> Precedes(sel, x, y)
  {
    OneRemoved(sel, t);
    hide Removed;
    if t !in sel {
      forall x, y | x != t && y != t && Precedes(sel + [t], x, y) ensures Precedes(sel, x, y) {
        var i, j :| 0 <= i < j < |sel + [t]| && (sel + [t])[i] == x && (sel + [t])[j] == y;
        assert sel[i] == x && sel[j] == y;
      }
    }
  }

  lemma OneRemoved(sel: seq<Target>, t: Target)
    ensures forall x, y :: Precedes(Removed(sel, t), x, y) ==> Precedes(sel, x, y)
  {
    var now, at := Removed(sel, t), IndexOf(sel, t);
    forall x, y | Precedes(now, x, y) ensures Precedes(sel, x, y) {
      var i, j :| 0 <= i < j < |now| && now[i] == x && now[j] == y;
      assert sel[if at < 0 || i < at then i else i + 1] == x && sel[if at < 0 || j < at then j else j + 1] == y;
    }
  }

  lemma SelectedIs(s: ProgState, action: SelectAction, ts: seq<Target>)
    requires NoRepeats(s.selection) && NoRepeats(s.order)
    ensures action.SelectOther? || SelectedBy(s, action, ts, Selected(s, action, ts))
  {
    hide Picked, NoRepeats, ByComingUp, OrderKept, UnnamedInOrder;
    PickedIs(s.selection, action, ts);
    NoneRepeat();
    PickedIs([], action, ts);
    forall x ensures Count(ts, x) == multiset(ts)[x] {
      CountIs(ts, x);
    }
    match action
    case SelectSet => AddedByComingUp([], action, ts);
    case SelectAdd => AddedByComingUp(s.selection, action, ts);
    case SelectRemove => RemovedInOrder(s.selection, ts);
    case SelectToggle => ToggledInOrder(s.selection, ts);
    case SelectAll => WholesOnce(s.order);
    case _ =>
  }

  lemma NoneRepeat()
    ensures NoRepeats<Target>([])
  {}

  lemma WholesOnce(order: seq<string>)
    requires NoRepeats(order)
    ensures NoRepeats(Wholes(order))
  {}

  /** A selection is refused to a caller who is behind, for the first target that is not there, and where
      all or none is asked for and targets are named, or the action is unknown. Any other leaves the
      selection asked for and ends stepping. */
  lemma SelectExactly(s: ProgState, action: SelectAction, ts: seq<Target>, expected: Option<nat>)
    requires Valid(s)
    ensures var (next, err) := SelectStep(s, action, ts, expected);
            var odd := action.SelectOther? || ((action.SelectAll? || action.SelectNone?) && ts != []);
            (err == Some(ProgError.Stale) <==> Outdated(s, expected)) &&
            (forall e :: FirstMissing(s.profiles, ts, e) && !Outdated(s, expected) ==> err == Some(e)) &&
            (err == Some(BadRequest) <==> !Outdated(s, expected) && AllThere(s.profiles, ts) && odd) &&
            (err.None? <==> !Outdated(s, expected) && AllThere(s.profiles, ts) && !odd) &&
            (err.Some? ==> next == s) &&
            (err.None? ==> next == s.(selection := next.selection, stepping := false, revision := s.revision + 1) && SelectedBy(s, action, ts, next.selection))
  {
    FirstBadIs(s.profiles, ts);
    SelectedIs(s, action, ts);
    MissingErrors(s.profiles, ts);
    hide FirstBad, FirstMissing, AllThere, SelectedBy, Selected, AllLive, AllTouchable, ProfilesOk;
  }

  lemma MissingErrors(profiles: Profiles, ts: seq<Target>)
    ensures forall e :: FirstMissing(profiles, ts, e) ==> !AllThere(profiles, ts) && (e.NoSuchCell? || e.NoSuchFixture?)
  {
    hide There;
  }

  // ---------------------------------------------------------------- values set and kept

  /** The applied value lies in a function marked a fixture command, or in none, on a channel of no family. */
  ghost predicate IsCommandOf(profiles: Profiles, a: Applied)
  {
    a.entry in profiles && a.channel < |profiles[a.entry].model.parameters| &&
    exists c :: ChannelAt(profiles[a.entry], profiles[a.entry].model.parameters[a.channel].offset, c) && c < |profiles[a.entry].details| &&
                CommandIn(profiles[a.entry].details[c], a.function_)
  }

  predicate CommandIn(d: ChannelDetail, fi: int)
  {
    (0 <= fi < |d.functions| && d.functions[fi].command) || (!(0 <= fi < |d.functions|) && d.group.OtherGroup?)
  }

  lemma CommandIs(profiles: Profiles, a: Applied)
    ensures AppliedCommand(profiles, a) <==> IsCommandOf(profiles, a)
  {
    if a.entry in profiles && a.channel < |profiles[a.entry].model.parameters| {
      FirstChannelIs(profiles[a.entry], profiles[a.entry].model.parameters[a.channel].offset);
    }
    hide FirstChannel, ChannelAt;
  }

  /** Staged values are kept, over the ones held, unless none was applied or one is a fixture command. */
  lemma CommitExactly(s: ProgState, staged: Staged)
    ensures var (next, err) := CommitStep(s, staged);
            var commanded := exists i :: 0 <= i < |staged.applied| && IsCommandOf(s.profiles, staged.applied[i]);
            (err == Some(NothingApplied) <==> staged.applied == []) && (err == Some(CommandRefused) <==> staged.applied != [] && commanded) &&
            (err.None? <==> staged.applied != [] && !commanded) && (err.Some? ==> next == s) &&
            (err.None? ==> next == s.(values := next.values, revision := s.revision + 1) &&
                           next.values.Keys == s.values.Keys + staged.pending.Keys &&
                           forall k :: k in next.values ==> next.values[k] == if k in staged.pending then staged.pending[k] else s.values[k])
  {
    forall i | 0 <= i < |staged.applied| ensures AppliedCommand(s.profiles, staged.applied[i]) <==> IsCommandOf(s.profiles, staged.applied[i]) {
      CommandIs(s.profiles, staged.applied[i]);
    }
    hide AppliedCommand, IsCommandOf;
  }

  /** The targets of a call: those it names, or the selection. */
  function TargetsOf(s: ProgState, targets: Option<seq<Target>>): seq<Target>
  {
    match targets
    case Some(ts) => ts
    case None => s.selection
  }

  lemma MatchStepIs(s: ProgState, targets: Option<seq<Target>>, attribute: string)
    ensures var r, ts := MatchStep(s, targets, attribute), TargetsOf(s, targets);
            (r == Err(NothingSelected) <==> ts == []) && (forall e :: FirstMissing(s.profiles, ts, e) ==> r == Err(e)) &&
            (r.Ok? <==> ts != [] && AllThere(s.profiles, ts))
  {
    MatchMissing(s.profiles, TargetsOf(s, targets), attribute);
    MissingErrors(s.profiles, TargetsOf(s, targets));
    NothingMissing(s.profiles);
    hide MatchTargets, FirstMissing, AllThere;
  }

  lemma NothingMissing(profiles: Profiles)
    ensures forall e :: !FirstMissing(profiles, [], e)
  {}

  /** A request is refused to a caller who is behind, for what is wrong with it, without targets, and for the
      first target that is not there; any other keeps what it staged. */
  lemma SetExactly(s: ProgState, r: Request, targets: Option<seq<Target>>, expected: Option<nat>)
    requires Valid(s)
    ensures var (o, ts) := (SetStep(s, r, targets, expected), TargetsOf(s, targets));
            (Outdated(s, expected) ==> o == (s, Some(ProgError.Stale))) &&
            (!Outdated(s, expected) && !RequestOk(r) ==> o == (s, Some(BadRequest))) &&
            (!Outdated(s, expected) && RequestOk(r) ==>
              (ts == [] ==> o == (s, Some(NothingSelected))) && (forall e :: FirstMissing(s.profiles, ts, e) ==> o == (s, Some(e))) &&
              (ts != [] && AllThere(s.profiles, ts) ==>
                exists matched :: MatchTargets(s.profiles, ts, r.attribute, |ts|) == Ok(matched) && MatchesOk(s.profiles, matched.matches) &&
                                  o == CommitStep(s, StagedFor(s, matched, SetAsk(r), NamesFunction(r)))))
  {
    MatchStepIs(s, targets, r.attribute);
    if MatchStep(s, targets, r.attribute).Ok? {
      MatchStepOk(s, targets, r.attribute);
    }
    hide CommitStep, StagedFor, RequestOk, MatchesOk, MatchTargets, FirstMissing, AllThere, Valid;
  }

  /** o is what a fan over matched gives: it needs two positions, or three where its shape has a middle. */
  ghost predicate FansOut(s: ProgState, from: Request, to: Request, shape: Shape, matched: Matched, o: Outcome)
    requires MatchesOk(s.profiles, matched.matches)
  {
    var n := |matched.matches|;
    if n < 2 || (n == 2 && (shape.Mirror? || shape.EdgesIn?)) then o == (s, Some(TooFew))
    else o == CommitStep(s, StagedFor(s, matched, FanAsk(from, to, shape, n), NamesFunction(from)))
  }

  /** A fan moreover needs a shape, and both its ends well-formed. */
  lemma FanExactly(s: ProgState, from: Request, to: Request, shape: Option<Shape>, targets: Option<seq<Target>>, expected: Option<nat>)
    requires Valid(s)
    ensures var (o, ts) := (FanStep(s, from, to, shape, targets, expected), TargetsOf(s, targets));
            var bad := !RequestOk(from) || !RequestOk(to) || shape.None?;
            (Outdated(s, expected) ==> o == (s, Some(ProgError.Stale))) && (!Outdated(s, expected) && bad ==> o == (s, Some(BadRequest))) &&
            (!Outdated(s, expected) && !bad ==>
              (ts == [] ==> o == (s, Some(NothingSelected))) && (forall e :: FirstMissing(s.profiles, ts, e) ==> o == (s, Some(e))) &&
              (ts != [] && AllThere(s.profiles, ts) ==>
                exists matched :: MatchTargets(s.profiles, ts, from.attribute, |ts|) == Ok(matched) && MatchesOk(s.profiles, matched.matches) &&
                                  FansOut(s, from, to, shape.value, matched, o)))
  {
    MatchStepIs(s, targets, from.attribute);
    if MatchStep(s, targets, from.attribute).Ok? {
      MatchStepOk(s, targets, from.attribute);
      if shape.Some? {
        FanOver(s, from, to, shape.value, MatchStep(s, targets, from.attribute).value);
      }
    }
    hide CommitStep, StagedFor, RequestOk, MatchesOk, MatchTargets, FirstMissing, AllThere, Valid, FanAsk, FansOut;
  }

  lemma FanOver(s: ProgState, from: Request, to: Request, shape: Shape, matched: Matched)
    requires Valid(s) && MatchesOk(s.profiles, matched.matches)
    ensures FansOut(s, from, to, shape, matched,
                    if |matched.matches| < Needed(shape) then Refuse(s, TooFew)
                    else CommitStep(s, StagedFor(s, matched, FanAsk(from, to, shape, |matched.matches|), NamesFunction(from))))
  {
    hide CommitStep, StagedFor, FanAsk, Valid, MatchesOk;
  }

  // ---------------------------------------------------------------- raw values

  /** A channel of the fixture is at the offset, or has a byte there. */
  ghost predicate Covered(m: Model, offset: uint16)
  {
    exists i :: 0 <= i < |m.parameters| && (m.parameters[i].offset == offset || offset in m.parameters[i].offsets)
  }

  /** e is what is wrong with w: a channel covers its offset, or it is outside the footprint, or its value is no byte. */
  ghost predicate RawWrong(m: Model, w: RawWrite, e: ProgError)
  {
    if w.offset in m.rawOffsets then w.value.Some? && !(0 <= w.value.value <= 255) && e == BadValue
    else e == if Covered(m, w.offset) then CoveredOffset else OutsideFootprint
  }

  ghost predicate RawRight(m: Model, w: RawWrite)
  {
    w.offset in m.rawOffsets && (w.value.Some? ==> 0 <= w.value.value <= 255)
  }

  ghost predicate FirstWrong(m: Model, ws: seq<RawWrite>, e: ProgError)
  {
    exists i :: 0 <= i < |ws| && RawWrong(m, ws[i], e) && forall j :: 0 <= j < i ==> RawRight(m, ws[j])
  }

  lemma RawIs(m: Model, w: RawWrite)
    ensures forall e :: RawRefused(m, w) == Some(e) <==> RawWrong(m, w, e)
    ensures RawRefused(m, w).None? <==> RawRight(m, w)
    ensures RawRight(m, w) <==> forall e :: !RawWrong(m, w, e)
  {
    hide CoveredByParam, Covered;
    CoveredIs(m, w.offset);
    var e := if Covered(m, w.offset) then CoveredOffset else OutsideFootprint;
    assert w.offset !in m.rawOffsets ==> RawWrong(m, w, e);
    assert w.offset in m.rawOffsets && !RawRight(m, w) ==> RawWrong(m, w, BadValue);
  }

  lemma CoveredIs(m: Model, offset: uint16)
    ensures CoveredByParam(m, offset) <==> Covered(m, offset)
  {}

  lemma {:induction false} FirstWrongIs(m: Model, ws: seq<RawWrite>)
    ensures forall e :: FirstRefused(m, ws) == Some(e) <==> FirstWrong(m, ws, e)
    ensures FirstRefused(m, ws).None? <==> forall i :: 0 <= i < |ws| ==> RawRight(m, ws[i])
  {
    hide RawRefused, RawWrong, RawRight;
    if ws != [] {
      FirstWrongIs(m, ws[1..]);
      RawIs(m, ws[0]);
      assert forall i :: 0 < i < |ws| ==> ws[i] == ws[1..][i - 1];
      forall e ensures FirstRefused(m, ws) == Some(e) <==> FirstWrong(m, ws, e) {
        FirstWrongStep(m, ws, e);
      }
    }
  }

  lemma FirstWrongStep(m: Model, ws: seq<RawWrite>, e: ProgError)
    requires ws != []
    ensures FirstWrong(m, ws, e) <==> RawWrong(m, ws[0], e) || (RawRight(m, ws[0]) && FirstWrong(m, ws[1..], e))
  {
    hide RawWrong, RawRight;
    if i :| 0 <= i < |ws| && RawWrong(m, ws[i], e) && forall j :: 0 <= j < i ==> RawRight(m, ws[j]) {
      assert i > 0 ==> ws[1..][i - 1] == ws[i] && forall j :: 0 <= j < i - 1 ==> ws[1..][j] == ws[j + 1];
    }
    if i :| 0 <= i < |ws[1..]| && RawWrong(m, ws[1..][i], e) && forall j :: 0 <= j < i ==> RawRight(m, ws[1..][j]) {
      if RawRight(m, ws[0]) {
        assert forall j :: 0 < j <= i + 1 ==> ws[j] == ws[1..][j - 1];
        assert RawWrong(m, ws[i + 1], e);
      }
    }
  }

  /** Raw writes are refused to a caller who is behind, for a fixture that is not there, where there are none,
      and for the first that is wrong; else they are all carried out, and nothing else changes. */
  lemma RawExactly(s: ProgState, entry: string, ws: seq<RawWrite>, expected: Option<nat>)
    ensures var (next, err) := RawStep(s, entry, ws, expected);
            var heard := !Outdated(s, expected) && entry in s.profiles && ws != [];
            (err == Some(ProgError.Stale) <==> Outdated(s, expected)) &&
            (err == Some(NoSuchFixture) <==> !Outdated(s, expected) && entry !in s.profiles) &&
            (err == Some(BadRequest) <==> !Outdated(s, expected) && entry in s.profiles && ws == []) &&
            (heard ==> forall e :: FirstWrong(s.profiles[entry].model, ws, e) ==> err == Some(e)) &&
            (err.None? <==> heard && forall i :: 0 <= i < |ws| ==> RawRight(s.profiles[entry].model, ws[i])) && (err.Some? ==> next == s) &&
            (err.None? ==> next == s.(values := next.values, revision := s.revision + 1) && RawDone(s.values, entry, ws, next.values))
  {
    hide RawRefused, RawRight, FirstRefused, FirstWrong, RawWritten, RawDone;
    if entry in s.profiles {
      var m := s.profiles[entry].model;
      FirstWrongIs(m, ws);
      WrongErrors(m, ws);
      NoneRefused(m, ws);
      if FirstRefused(m, ws).None? {
        RawRanges(m, ws);
        RawIsDone(s.values, entry, ws);
      }
    }
  }

  lemma RawRanges(m: Model, ws: seq<RawWrite>)
    requires forall i :: 0 <= i < |ws| ==> RawRight(m, ws[i])
    ensures forall i :: 0 <= i < |ws| && ws[i].value.Some? ==> 0 <= ws[i].value.value <= 255
  {
    forall i | 0 <= i < |ws| && ws[i].value.Some? ensures 0 <= ws[i].value.value <= 255 {
      assert RawRight(m, ws[i]);
    }
  }

  lemma WrongErrors(m: Model, ws: seq<RawWrite>)
    ensures forall e :: FirstWrong(m, ws, e) ==> e.CoveredOffset? || e.OutsideFootprint? || e.BadValue?
  {}

  /** Write i is the last to its offset. */
  predicate LastTo(ws: seq<RawWrite>, i: int)
  {
    0 <= i < |ws| && forall j :: i < j < |ws| ==> ws[j].offset != ws[i].offset
  }

  /** The last write to an offset counts; the fixture's other values and other fixtures' stay. */
  ghost predicate RawDone(was: Values, entry: string, ws: seq<RawWrite>, now: Values)
  {
    (forall i :: LastTo(ws, i) ==> var k := Key(entry, ws[i].offset);
                                   (k in now <==> ws[i].value.Some?) && (k in now ==> now[k] == ws[i].value.value)) &&
    forall k: Key :: k.entry != entry || (forall i :: 0 <= i < |ws| ==> ws[i].offset != k.offset) ==>
      (k in now <==> k in was) && (k in now ==> now[k] == was[k])
  }

  lemma RawIsDone(was: Values, entry: string, ws: seq<RawWrite>)
    requires forall i :: 0 <= i < |ws| && ws[i].value.Some? ==> 0 <= ws[i].value.value <= 255
    ensures RawDone(was, entry, ws, RawWritten(was, entry, ws))
  {
    hide RawWritten;
    forall k: Key {
      RawWrittenIs(was, entry, ws, k);
    }
  }

  // ---------------------------------------------------------------- highlight and stepping

  /** Highlight is on once the change is made. */
  predicate OnThen(s: ProgState, highlight: Option<bool>)
  {
    highlight == Some(true) || (highlight.None? && s.highlight)
  }

  /** A change of Highlight that asks nothing, a level outside 0 to 100, an unknown step, or a step while Highlight
      is off is a bad request; a step needs a selection. */
  lemma HighlightRefusals(s: ProgState, highlight: Option<bool>, lowlight: Option<bool>, percent: Option<int>, step: StepKind, expected: Option<nat>)
    ensures var (next, err) := HighlightStep(s, highlight, lowlight, percent, step, expected);
            var steps := step.StepNext? || step.StepPrevious?;
            var bad := (highlight.None? && lowlight.None? && percent.None? && step.NoStep?) || step.StepOther? ||
                       (percent.Some? && !(0 <= percent.value <= 100)) || (steps && !OnThen(s, highlight));
            (err == Some(ProgError.Stale) <==> Outdated(s, expected)) && (err == Some(BadRequest) <==> !Outdated(s, expected) && bad) &&
            (err == Some(NothingSelected) <==> !Outdated(s, expected) && !bad && steps && s.selection == []) &&
            (err.None? <==> !Outdated(s, expected) && !bad && !(steps && s.selection == [])) && (err.Some? ==> next == s)
  {}

  /** A change carried out: a step goes one member on or back and stops at either end; it starts at the end it
      comes from; switching Highlight off ends stepping, and so does going back to all. */
  lemma HighlightExactly(s: ProgState, highlight: Option<bool>, lowlight: Option<bool>, percent: Option<int>, step: StepKind, expected: Option<nat>)
    requires HighlightStep(s, highlight, lowlight, percent, step, expected).1.None?
    ensures var next, last, stepping := HighlightStep(s, highlight, lowlight, percent, step, expected).0, |s.selection| - 1, s.stepping && highlight != Some(false);
            next == s.(highlight := next.highlight, lowlight := next.lowlight, lowPct := next.lowPct, stepping := next.stepping, step := next.step,
                       revision := s.revision + 1) &&
            (next.highlight <==> OnThen(s, highlight)) && (next.lowlight <==> lowlight == Some(true) || (lowlight.None? && s.lowlight)) &&
            (percent.Some? ==> next.lowPct == percent.value) && (percent.None? ==> next.lowPct == s.lowPct) &&
            (step.StepNext? ==> next.stepping && (!stepping ==> next.step == 0) && (stepping && s.step < last ==> next.step == s.step + 1) &&
                                (stepping && s.step >= last ==> next.step == s.step)) &&
            (step.StepPrevious? ==> next.stepping && (!stepping ==> next.step == last) && (stepping && s.step > 0 ==> next.step == s.step - 1) &&
                                    (stepping && s.step <= 0 ==> next.step == s.step)) &&
            (step.StepAll? ==> !next.stepping) && (step.NoStep? ==> (next.stepping <==> stepping) && next.step == s.step)
  {}

  // ---------------------------------------------------------------- sync

  /** Entry i is the first of its id. */
  predicate FirstOf(entries: seq<(string, Profile)>, i: int)
  {
    0 <= i < |entries| && forall j :: 0 <= j < i ==> entries[j].0 != entries[i].0
  }

  lemma {:induction false} FirstKept(entries: seq<(string, Profile)>, i: nat)
    requires FirstOf(entries, i)
    ensures entries[i].0 in FirstProfiles(entries) && FirstProfiles(entries)[entries[i].0] == entries[i].1
  {
    var n := |entries| - 1;
    FirstAre(entries[..n]);
    if i < n {
      assert FirstOf(entries[..n], i);
      FirstKept(entries[..n], i);
    }
  }

  /** Id x comes up in entries, and y not before it nor there. */
  ghost predicate IdEarlier(entries: seq<(string, Profile)>, x: string, y: string)
  {
    exists i :: 0 <= i < |entries| && entries[i].0 == x && forall j :: 0 <= j <= i ==> entries[j].0 != y
  }

  ghost predicate ListedAsMet(entries: seq<(string, Profile)>, order: seq<string>)
  {
    forall i, j :: 0 <= i < j < |order| ==> IdEarlier(entries, order[i], order[j])
  }

  lemma {:induction false} OrderAsMet(entries: seq<(string, Profile)>)
    ensures ListedAsMet(entries, FirstOrder(entries))
  {
    hide IdEarlier;
    if entries != [] {
      OrderAsMet(entries[..|entries| - 1]);
      IdsEarlier(entries[..|entries| - 1], entries[|entries| - 1]);
      assert entries[..|entries| - 1] + [entries[|entries| - 1]] == entries;
    }
  }

  lemma IdsEarlier(init: seq<(string, Profile)>, last: (string, Profile))
    requires ListedAsMet(init, FirstOrder(init))
    ensures ListedAsMet(init + [last], FirstOrder(init + [last]))
  {
    FirstAre(init);
    var entries, before := init + [last], FirstOrder(init);
    assert entries[..|init|] == init;
    forall i, j | 0 <= i < j < |FirstOrder(entries)| ensures IdEarlier(entries, FirstOrder(entries)[i], FirstOrder(entries)[j]) {
      var x, y := FirstOrder(entries)[i], FirstOrder(entries)[j];
      assert x == before[i];
      if j < |before| {
        assert IdEarlier(init, before[i], before[j]);
        var k :| 0 <= k < |init| && init[k].0 == x && forall l :: 0 <= l <= k ==> init[l].0 != y;
        assert entries[k].0 == x && forall l :: 0 <= l <= k ==> entries[l] == init[l];
      } else {
        assert y == last.0 && y !in before && x in before;
        var k :| 0 <= k < |init| && init[k] == (x, FirstProfiles(init)[x]);
        NotListed(init, y);
        assert entries[k].0 == x && forall l :: 0 <= l <= k ==> entries[l] == init[l];
      }
    }
  }

  lemma {:induction false} NotListed(entries: seq<(string, Profile)>, id: string)
    requires id !in FirstOrder(entries)
    ensures forall i :: 0 <= i < |entries| ==> entries[i].0 != id
  {
    if entries != [] {
      NotListed(entries[..|entries| - 1], id);
    }
  }

  lemma {:induction false} KeptInOrder(profiles: Profiles, ts: seq<Target>)
    ensures OrderKept(ts, KeptTargets(profiles, ts))
  {
    hide KeptTargets, OrderKept;
    LastKept(profiles, ts);
    if ts != [] {
      var init, t := ts[..|ts| - 1], ts[|ts| - 1];
      KeptInOrder(profiles, init);
      KeptAre(profiles, init);
      OrderGrows(init, KeptTargets(profiles, init), t);
      assert init + [t] == ts;
    } else {
      NoOrder();
    }
  }

  lemma LastKept(profiles: Profiles, ts: seq<Target>)
    ensures if ts == [] then KeptTargets(profiles, ts) == []
            else var kept := KeptTargets(profiles, ts[..|ts| - 1]); KeptTargets(profiles, ts) == kept || KeptTargets(profiles, ts) == kept + [ts[|ts| - 1]]
  {
    hide IsLive;
    if ts != [] {
      var kept := KeptTargets(profiles, ts[..|ts| - 1]);
      assert kept + [] == kept;
    }
  }

  lemma NoOrder()
    ensures OrderKept<Target>([], [])
  {}

  lemma OrderGrows(s: seq<Target>, now: seq<Target>, t: Target)
    requires OrderKept(s, now) && forall x :: x in now ==> x in s
    ensures OrderKept(s + [t], now) && OrderKept(s + [t], now + [t])
  {
    forall x, y | Precedes(now + [t], x, y) ensures Precedes(s + [t], x, y) {
      var i, j :| 0 <= i < j < |now + [t]| && (now + [t])[i] == x && (now + [t])[j] == y;
      assert now[i] == x && x in s;
      if j < |now| {
        assert now[j] == y && Precedes(now, x, y) && y in s;
        PrecedesMore(s, t, x, y);
      } else {
        var k :| 0 <= k < |s| && s[k] == x;
        assert (s + [t])[k] == x && (s + [t])[|s|] == y;
      }
    }
    forall x, y | Precedes(now, x, y) ensures Precedes(s + [t], x, y) {
      assert x in now && y in now;
      PrecedesMore(s, t, x, y);
    }
  }

  lemma PrecedesMore(s: seq<Target>, t: Target, x: Target, y: Target)
    requires Precedes(s, x, y)
    ensures Precedes(s + [t], x, y)
  {
    var i, j :| 0 <= i < j < |s| && s[i] == x && s[j] == y;
    assert (s + [t])[i] == x && (s + [t])[j] == y;
  }

  lemma LiveIs(profiles: Profiles, t: Target)
    ensures IsLive(profiles, t) <==> There(profiles, t)
  {}

  /** The fixtures after a sync: of each id in entries the first, in the order they come up. */
  ghost predicate Follows(s: ProgState, entries: seq<(string, Profile)>)
  {
    (forall e :: e in s.profiles <==> e in s.order) && (forall i :: FirstOf(entries, i) ==> entries[i].0 in s.profiles && s.profiles[entries[i].0] == entries[i].1) &&
    (forall e :: e in s.profiles ==> exists i :: 0 <= i < |entries| && entries[i].0 == e) && ListedAsMet(entries, s.order)
  }

  lemma SyncedFollows(s: ProgState, token: string, entries: seq<(string, Profile)>, clear: bool)
    ensures Follows(Synced(s, token, entries, clear), entries)
  {
    FirstAre(entries);
    forall i | FirstOf(entries, i) ensures entries[i].0 in FirstProfiles(entries) && FirstProfiles(entries)[entries[i].0] == entries[i].1 {
      FirstKept(entries, i);
    }
    OrderAsMet(entries);
    hide FirstProfiles, FirstOrder, KeptTargets, KeptValues, ShownOf, ListedAsMet, FirstOf;
    var now := FirstProfiles(entries);
    forall e | e in now ensures exists i :: 0 <= i < |entries| && entries[i].0 == e {
      var i :| 0 <= i < |entries| && entries[i] == (e, now[e]);
      assert entries[i].0 == e;
    }
  }

  /** What stays of the selection and the values: nothing at a show switch; else the targets that are still
      there, in their order, and the values of fixtures that have the profile they had. Stepping ends where a
      target went. */
  ghost predicate StaysAs(s: ProgState, next: ProgState, clear: bool)
  {
    (clear ==> next.selection == [] && next.values == map[] && !next.highlight && !next.stepping) &&
    (!clear ==>
      (forall t :: t in next.selection <==> t in s.selection && There(next.profiles, t)) && OrderKept(s.selection, next.selection) &&
      (forall k :: k in next.values <==> k in s.values && k.entry in s.profiles && k.entry in next.profiles &&
                                         next.profiles[k.entry].fingerprint == s.profiles[k.entry].fingerprint) &&
      (forall k :: k in next.values ==> next.values[k] == s.values[k]) && (next.highlight <==> s.highlight) &&
      (next.stepping <==> s.stepping && next.selection == s.selection)) &&
    next.step == s.step && next.lowlight == s.lowlight && next.lowPct == s.lowPct
  }

  lemma SyncedStays(s: ProgState, token: string, entries: seq<(string, Profile)>, clear: bool)
    ensures StaysAs(s, Synced(s, token, entries, clear), clear)
  {
    KeptAre(FirstProfiles(entries), s.selection);
    KeptInOrder(FirstProfiles(entries), s.selection);
    forall t ensures IsLive(FirstProfiles(entries), t) <==> There(FirstProfiles(entries), t) {
      LiveIs(FirstProfiles(entries), t);
    }
    hide IsLive, There, FirstProfiles, FirstOrder, KeptTargets, ShownOf, OrderKept;
  }

  /** A sync to the version the programmer has already followed does nothing, unless the show was switched.
      Any other follows it, and moves the revision on exactly when it says that something shown has changed:
      a fixture or its order, how many targets or values there are, or Highlight. */
  lemma SyncExactly(s: ProgState, token: string, entries: seq<(string, Profile)>, clear: bool)
    ensures var (next, changed) := SyncStep(s, token, entries, clear);
            if !clear && s.token == Some(token) then next == s && !changed
            else next.token == Some(token) && Follows(next, entries) && StaysAs(s, next, clear) &&
                 (changed <==> next.shown != s.shown || |next.selection| != |s.selection| || |next.values| != |s.values| || next.highlight != s.highlight) &&
                 next.revision == s.revision + if changed then 1 else 0
  {
    hide Synced, Follows, StaysAs;
    var now, revision := Synced(s, token, entries, clear), SyncStep(s, token, entries, clear).0.revision;
    SyncedFollows(s, token, entries, clear);
    SyncedStays(s, token, entries, clear);
    SyncedTo(s, token, entries, clear);
    SameFollows(now, revision, entries);
    SameStays(s, now, revision, clear);
  }

  lemma SyncedTo(s: ProgState, token: string, entries: seq<(string, Profile)>, clear: bool)
    ensures Synced(s, token, entries, clear).token == Some(token)
  {}

  lemma SameFollows(s: ProgState, revision: nat, entries: seq<(string, Profile)>)
    ensures Follows(s.(revision := revision), entries) <==> Follows(s, entries)
  {}

  lemma SameStays(s: ProgState, now: ProgState, revision: nat, clear: bool)
    ensures StaysAs(s, now.(revision := revision), clear) <==> StaysAs(s, now, clear)
  {}
}
