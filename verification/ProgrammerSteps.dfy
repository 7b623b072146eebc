/** The programmer's operations as steps on its state: what each call changes, what it refuses, and what
    every run of calls keeps. */
module ProgrammerSteps {
  import opened Prelude
  import opened ChannelMap
  import opened ParameterModel
  import opened Faders
  import opened ChannelValues
  import opened ProgrammerModel
  import opened Staging
  import opened FanShapes

  /** The state shared by every browser. shown is the digest of the patch as the read model shows it. */
  datatype ProgState = ProgState(
    order: seq<string>,
    profiles: Profiles,
    selection: seq<Target>,
    values: Values,
    revision: nat,
    highlight: bool,
    lowlight: bool,
    stepping: bool,
    step: int,
    lowPct: int,
    shown: seq<string>,
    token: Option<string>)

  ghost predicate NoRepeats<T>(s: seq<T>)
  {
    forall i, j :: 0 <= i < j < |s| ==> s[i] != s[j]
  }

  ghost predicate AllLive(profiles: Profiles, ts: seq<Target>)
  {
    forall t :: t in ts ==> IsLive(profiles, t)
  }

  ghost predicate AllTouchable(profiles: Profiles, values: Values)
  {
    forall k :: k in values ==> k.entry in profiles && IsTouchable(profiles[k.entry].model, k.offset)
  }

  /** The selection names fixtures and cells of the patch, each once; every value is held on a channel or
      raw offset of its fixture; Highlight steps only while it is on, at a member of the selection. */
  ghost predicate Valid(s: ProgState)
  {
    ProfilesOk(s.profiles) && NoRepeats(s.order) && (forall e :: e in s.order <==> e in s.profiles) &&
    NoRepeats(s.selection) && AllLive(s.profiles, s.selection) && AllTouchable(s.profiles, s.values) &&
    (s.stepping ==> s.highlight && 0 <= s.step < |s.selection|)
  }

  predicate IsStale(s: ProgState, expected: Option<nat>)
  {
    expected.Some? && expected.value != s.revision
  }

  type Outcome = (ProgState, Option<ProgError>)

  function Refuse(s: ProgState, e: ProgError): Outcome { (s, Some(e)) }

  function Done(s: ProgState): Outcome { (s.(revision := s.revision + 1), None) }

  // ---------------------------------------------------------------- selection

  datatype SelectAction = SelectSet | SelectAdd | SelectRemove | SelectToggle | SelectAll | SelectNone | SelectOther

  function IndexOf<T(==)>(s: seq<T>, x: T): (i: int)
    ensures -1 <= i < |s| && (i >= 0 ==> s[i] == x) && (i < 0 ==> x !in s)
    ensures forall j :: 0 <= j < i ==> s[j] != x
  {
    if s == [] then -1
    else if s[0] == x then 0
    else
      var i := IndexOf(s[1..], x);
      if i < 0 then -1 else i + 1
  }

  function Added(sel: seq<Target>, t: Target): seq<Target>
  {
    if t in sel then sel else sel + [t]
  }

  function Removed(sel: seq<Target>, t: Target): seq<Target>
  {
    var i := IndexOf(sel, t);
    if i >= 0 then sel[..i] + sel[i + 1..] else sel
  }

  function Toggled(sel: seq<Target>, t: Target): seq<Target>
  {
    if t in sel then Removed(sel, t) else sel + [t]
  }

  function PickOne(sel: seq<Target>, action: SelectAction, t: Target): seq<Target>
  {
    match action
    case SelectSet => Added(sel, t)
    case SelectAdd => Added(sel, t)
    case SelectRemove => Removed(sel, t)
    case SelectToggle => Toggled(sel, t)
    case _ => sel
  }

  function Picked(sel: seq<Target>, action: SelectAction, ts: seq<Target>): seq<Target>
  {
    if ts == [] then sel else PickOne(Picked(sel, action, ts[..|ts| - 1]), action, ts[|ts| - 1])
  }

  function Wholes(order: seq<string>): seq<Target>
  {
    seq(|order|, i requires 0 <= i < |order| => Whole(order[i]))
  }

  function FirstBad(profiles: Profiles, ts: seq<Target>): Option<ProgError>
  {
    if ts == [] then None
    else if ts[0].entry !in profiles then Some(NoSuchFixture)
    else if ts[0].cell != "" && !HasCell(profiles[ts[0].entry].model, ts[0].cell) then Some(NoSuchCell)
    else FirstBad(profiles, ts[1..])
  }

  function SelectStep(s: ProgState, action: SelectAction, ts: seq<Target>, expected: Option<nat>): Outcome
  {
    if IsStale(s, expected) then Refuse(s, ProgError.Stale)
    else if FirstBad(s.profiles, ts).Some? then Refuse(s, FirstBad(s.profiles, ts).value)
    else if (action.SelectAll? || action.SelectNone?) && |ts| > 0 then Refuse(s, BadRequest)
    else if action.SelectOther? then Refuse(s, BadRequest)
    else Done(s.(selection := Selected(s, action, ts), stepping := false))
  }

  lemma RemovedIs(sel: seq<Target>, t: Target)
    requires NoRepeats(sel)
    ensures NoRepeats(Removed(sel, t)) && forall x :: x in Removed(sel, t) <==> x in sel && x != t
  {
    var i := IndexOf(sel, t);
    if i >= 0 {
      var r := Removed(sel, t);
      forall x ensures x in r <==> x in sel && x != t {
        if x in sel && x != t {
          var j :| 0 <= j < |sel| && sel[j] == x;
          assert r[if j < i then j else j - 1] == x;
        }
        if x in r {
          var j :| 0 <= j < |r| && r[j] == x;
          assert sel[if j < i then j else j + 1] == x;
        }
      }
    }
  }

  /** How often t is among ts. */
  function Count(ts: seq<Target>, t: Target): nat
  {
    if ts == [] then 0 else Count(ts[..|ts| - 1], t) + if ts[|ts| - 1] == t then 1 else 0
  }

  lemma {:induction false} CountIn(ts: seq<Target>, t: Target)
    ensures Count(ts, t) > 0 <==> t in ts
  {
    if ts != [] {
      var init := ts[..|ts| - 1];
      CountIn(init, t);
      assert ts == init + [ts[|ts| - 1]];
    }
  }

  /** What the selection holds afterwards: adding unites, removing subtracts, and toggling turns each
      target over as often as it is named; whatever was selected stays in its order. */
  lemma {:induction false} PickedIs(sel: seq<Target>, action: SelectAction, ts: seq<Target>)
    requires NoRepeats(sel)
    ensures NoRepeats(Picked(sel, action, ts))
    ensures action.SelectSet? || action.SelectAdd? ==> sel <= Picked(sel, action, ts) && forall x :: x in Picked(sel, action, ts) <==> x in sel || x in ts
    ensures action.SelectRemove? ==> forall x :: x in Picked(sel, action, ts) <==> x in sel && x !in ts
    ensures action.SelectToggle? ==> forall x :: x in Picked(sel, action, ts) <==> (if x in sel then Count(ts, x) % 2 == 0 else Count(ts, x) % 2 == 1)
  {
    hide PickOne;
    if ts != [] {
      var init, t := ts[..|ts| - 1], ts[|ts| - 1];
      PickedIs(sel, action, init);
      OnePicked(Picked(sel, action, init), action, t);
      assert ts == init + [t];
      assert forall x :: Count(ts, x) == Count(init, x) + if x == t then 1 else 0;
    }
  }

  lemma OnePicked(sel: seq<Target>, action: SelectAction, t: Target)
    requires NoRepeats(sel)
    ensures var now := PickOne(sel, action, t);
            NoRepeats(now) &&
            (action.SelectSet? || action.SelectAdd? ==> sel <= now && forall x :: x in now <==> x in sel || x == t) &&
            (action.SelectRemove? ==> forall x :: x in now <==> x in sel && x != t) &&
            (action.SelectToggle? ==> forall x :: x in now <==> if x == t then x !in sel else x in sel)
  {
    hide Removed;
    RemovedIs(sel, t);
  }

  lemma {:induction false} GoodTargets(profiles: Profiles, ts: seq<Target>)
    ensures FirstBad(profiles, ts).None? <==> AllLive(profiles, ts)
  {
    hide HasCell;
    if ts != [] {
      GoodTargets(profiles, ts[1..]);
      assert ts[0] in ts;
      assert forall t :: t in ts <==> t == ts[0] || t in ts[1..];
    }
  }

  /** What a selection action leaves selected. */
  function Selected(s: ProgState, action: SelectAction, ts: seq<Target>): seq<Target>
  {
    match action
    case SelectSet => Picked([], action, ts)
    case SelectAll => Wholes(s.order)
    case SelectNone => []
    case _ => Picked(s.selection, action, ts)
  }

  lemma SelectedOk(s: ProgState, action: SelectAction, ts: seq<Target>)
    requires Valid(s) && AllLive(s.profiles, ts)
    ensures NoRepeats(Selected(s, action, ts)) && AllLive(s.profiles, Selected(s, action, ts))
  {
    PickedIs(s.selection, action, ts);
    PickedIs([], action, ts);
    PickedOther(s.selection, action, ts);
    forall x ensures Count(ts, x) > 0 <==> x in ts {
      CountIn(ts, x);
    }
    hide Picked, HasCell, Count, AllTouchable, ProfilesOk;
  }

  lemma {:induction false} PickedOther(sel: seq<Target>, action: SelectAction, ts: seq<Target>)
    ensures action.SelectAll? || action.SelectNone? || action.SelectOther? ==> Picked(sel, action, ts) == sel
  {
    if ts != [] {
      PickedOther(sel, action, ts[..|ts| - 1]);
    }
  }

  lemma SelectValid(s: ProgState, action: SelectAction, ts: seq<Target>, expected: Option<nat>)
    requires Valid(s)
    ensures Valid(SelectStep(s, action, ts, expected).0)
  {
    GoodTargets(s.profiles, ts);
    if AllLive(s.profiles, ts) {
      SelectedOk(s, action, ts);
    }
    hide Selected, FirstBad, AllLive, NoRepeats, AllTouchable, ProfilesOk;
  }

  // ---------------------------------------------------------------- values by attribute

  type Ask = (nat, Parameter, ChannelDetail) -> Result<Resolved, Why>

  /** The places of match i, its first n channels. */
  function MatchPlaces(profiles: Profiles, mt: Match, i: nat, ask: Ask, n: nat): seq<Place>
    requires n <= |mt.params| && mt.target.entry in profiles && |profiles[mt.target.entry].details| == |profiles[mt.target.entry].model.parameters|
    requires forall b :: 0 <= b < n ==> mt.params[b] < |profiles[mt.target.entry].model.parameters|
  {
    if n == 0 then []
    else
      var j := mt.params[n - 1];
      MatchPlaces(profiles, mt, i, ask, n - 1) +
      [Place(mt.target.entry, j, ask(i, profiles[mt.target.entry].model.parameters[j], profiles[mt.target.entry].details[j]))]
  }

  ghost predicate MatchesOk(profiles: Profiles, matches: seq<Match>)
  {
    ProfilesOk(profiles) &&
    forall a :: 0 <= a < |matches| ==>
      matches[a].target.entry in profiles &&
      forall b :: 0 <= b < |matches[a].params| ==> matches[a].params[b] < |profiles[matches[a].target.entry].model.parameters|
  }

  function PlacesOf(profiles: Profiles, matches: seq<Match>, ask: Ask, n: nat): seq<Place>
    requires n <= |matches| && MatchesOk(profiles, matches)
  {
    if n == 0 then []
    else PlacesOf(profiles, matches, ask, n - 1) + MatchPlaces(profiles, matches[n - 1], n - 1, ask, |matches[n - 1].params|)
  }

  lemma {:induction false} MatchPlacesOk(profiles: Profiles, mt: Match, i: nat, ask: Ask, n: nat)
    requires n <= |mt.params| && mt.target.entry in profiles && ProfilesOk(profiles)
    requires forall b :: 0 <= b < |mt.params| ==> mt.params[b] < |profiles[mt.target.entry].model.parameters|
    ensures forall j :: 0 <= j < |MatchPlaces(profiles, mt, i, ask, n)| ==> PlaceOk(profiles, MatchPlaces(profiles, mt, i, ask, n)[j])
  {
    if n > 0 {
      MatchPlacesOk(profiles, mt, i, ask, n - 1);
    }
  }

  lemma {:induction false} PlacesOfOk(profiles: Profiles, matches: seq<Match>, ask: Ask, n: nat)
    requires n <= |matches| && MatchesOk(profiles, matches)
    ensures forall j :: 0 <= j < |PlacesOf(profiles, matches, ask, n)| ==> PlaceOk(profiles, PlacesOf(profiles, matches, ask, n)[j])
  {
    if n > 0 {
      PlacesOfOk(profiles, matches, ask, n - 1);
      MatchPlacesOk(profiles, matches[n - 1], n - 1, ask, |matches[n - 1].params|);
      hide MatchPlaces, PlaceOk;
    }
  }

  function FirstChannel(m: Model, offset: uint16, i: nat): (j: nat)
    requires i <= |m.parameters|
    ensures i <= j <= |m.parameters| && (j < |m.parameters| ==> m.parameters[j].offset == offset)
    ensures j == |m.parameters| ==> forall n :: i <= n < |m.parameters| ==> m.parameters[n].offset != offset
    decreases |m.parameters| - i
  {
    if i == |m.parameters| || m.parameters[i].offset == offset then i else FirstChannel(m, offset, i + 1)
  }

  /** The applied value is a fixture command, which is sent once and never kept. */
  predicate AppliedCommand(profiles: Profiles, a: Applied)
  {
    a.entry in profiles && a.channel < |profiles[a.entry].model.parameters| &&
    var c := FirstChannel(profiles[a.entry].model, profiles[a.entry].model.parameters[a.channel].offset, 0);
    c < |profiles[a.entry].details| && IsCommand(profiles[a.entry].details[c], a.function_)
  }

  function CommitStep(s: ProgState, staged: Staged): Outcome
  {
    if |staged.applied| == 0 then Refuse(s, NothingApplied)
    else if exists i :: 0 <= i < |staged.applied| && AppliedCommand(s.profiles, staged.applied[i]) then Refuse(s, CommandRefused)
    else Done(s.(values := s.values + staged.pending))
  }

  function MatchStep(s: ProgState, targets: Option<seq<Target>>, attribute: string): Result<Matched, ProgError>
  {
    var ts := if targets.Some? then targets.value else s.selection;
    if ts == [] then Err(NothingSelected) else MatchTargets(s.profiles, ts, attribute, |ts|)
  }

  lemma MatchStepOk(s: ProgState, targets: Option<seq<Target>>, attribute: string)
    requires Valid(s) && MatchStep(s, targets, attribute).Ok?
    ensures MatchesOk(s.profiles, MatchStep(s, targets, attribute).value.matches)
  {
    var ts := if targets.Some? then targets.value else s.selection;
    MatchedExactly(s.profiles, ts, attribute, |ts|);
    hide MatchTargets, Carries, MatchedAt, AllWanted, CarriesNowhere;
  }

  /** The values staged for the matches of a request. */
  function StagedFor(s: ProgState, matched: Matched, ask: Ask, named: bool): Staged
    requires MatchesOk(s.profiles, matched.matches)
  {
    PlacesOfOk(s.profiles, matched.matches, ask, |matched.matches|);
    PlaceAll(s.profiles, s.values, PlacesOf(s.profiles, matched.matches, ask, |matched.matches|), named)
  }

  function SetAsk(r: Request): Ask
  {
    (i: nat, p: Parameter, d: ChannelDetail) => ResolveValue(r, p, d)
  }

  function SetStep(s: ProgState, r: Request, targets: Option<seq<Target>>, expected: Option<nat>): Outcome
    requires Valid(s)
  {
    if IsStale(s, expected) then Refuse(s, ProgError.Stale)
    else if !RequestOk(r) then Refuse(s, BadRequest)
    else
      match MatchStep(s, targets, r.attribute)
      case Err(e) => Refuse(s, e)
      case Ok(matched) =>
        MatchStepOk(s, targets, r.attribute);
        CommitStep(s, StagedFor(s, matched, SetAsk(r), NamesFunction(r)))
  }

  /** Each end in the channel's own terms, and the value at the position's share of the way. */
  function FanAsk(from: Request, to: Request, shape: Shape, n: nat): Ask
    requires n >= 2
  {
    (i: nat, p: Parameter, d: ChannelDetail) =>
      var a, b := ResolveValue(from, p, d), ResolveValue(to, p, d);
      if a.Err? then a
      else if b.Err? then b
      else Ok(Resolved(Wrap(FanValue(a.value.value, b.value.value, Position(shape, i, n))), if NamesFunction(from) then a.value.function_ else -1))
  }

  function FanStep(s: ProgState, from: Request, to: Request, shape: Option<Shape>, targets: Option<seq<Target>>, expected: Option<nat>): Outcome
    requires Valid(s)
  {
    if IsStale(s, expected) then Refuse(s, ProgError.Stale)
    else if !RequestOk(from) || !RequestOk(to) || shape.None? then Refuse(s, BadRequest)
    else
      match MatchStep(s, targets, from.attribute)
      case Err(e) => Refuse(s, e)
      case Ok(matched) =>
        if |matched.matches| < Needed(shape.value) then Refuse(s, TooFew)
        else
          MatchStepOk(s, targets, from.attribute);
          CommitStep(s, StagedFor(s, matched, FanAsk(from, to, shape.value, |matched.matches|), NamesFunction(from)))
  }

  lemma TouchableSum(profiles: Profiles, values: Values, pending: Values)
    requires AllTouchable(profiles, values) && OnChannels(profiles, pending)
    ensures AllTouchable(profiles, values + pending)
  {}

  lemma CommitValid(s: ProgState, staged: Staged)
    requires Valid(s) && OnChannels(s.profiles, staged.pending)
    ensures Valid(CommitStep(s, staged).0)
  {
    TouchableSum(s.profiles, s.values, staged.pending);
    hide AppliedCommand, AllLive, NoRepeats, AllTouchable, OnChannels, ProfilesOk;
  }

  lemma StagedValid(s: ProgState, matched: Matched, ask: Ask, named: bool)
    requires Valid(s) && MatchesOk(s.profiles, matched.matches)
    ensures Valid(CommitStep(s, StagedFor(s, matched, ask, named)).0)
  {
    hide Valid, MatchesOk, PlaceAll, PlacesOf, CommitStep, OnChannels, PlaceOk;
    PlacesOfOk(s.profiles, matched.matches, ask, |matched.matches|);
    PlacedAll(s.profiles, s.values, PlacesOf(s.profiles, matched.matches, ask, |matched.matches|), named);
    CommitValid(s, StagedFor(s, matched, ask, named));
  }

  lemma SetValid(s: ProgState, r: Request, targets: Option<seq<Target>>, expected: Option<nat>)
    requires Valid(s)
    ensures Valid(SetStep(s, r, targets, expected).0)
  {
    hide Valid, MatchesOk, StagedFor, CommitStep, MatchStep, RequestOk;
    if MatchStep(s, targets, r.attribute).Ok? {
      MatchStepOk(s, targets, r.attribute);
      StagedValid(s, MatchStep(s, targets, r.attribute).value, SetAsk(r), NamesFunction(r));
    }
  }

  lemma FanValid(s: ProgState, from: Request, to: Request, shape: Option<Shape>, targets: Option<seq<Target>>, expected: Option<nat>)
    requires Valid(s)
    ensures Valid(FanStep(s, from, to, shape, targets, expected).0)
  {
    hide Valid, MatchesOk, StagedFor, CommitStep, MatchStep, RequestOk, FanAsk;
    if shape.Some? && MatchStep(s, targets, from.attribute).Ok? && |MatchStep(s, targets, from.attribute).value.matches| >= Needed(shape.value) {
      MatchStepOk(s, targets, from.attribute);
      var matched := MatchStep(s, targets, from.attribute).value;
      StagedValid(s, matched, FanAsk(from, to, shape.value, |matched.matches|), NamesFunction(from));
    }
  }
}
