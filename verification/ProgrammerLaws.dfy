/** What a set and a fan carried out leave on the channels they reached. */
module ProgrammerLaws {
  import opened Prelude
  import opened ChannelMap
  import opened ParameterModel
  import opened Faders
  import opened ChannelValues
  import opened ProgrammerModel
  import opened Staging
  import opened FanShapes
  import opened ProgrammerSteps

  /** Channel b of match a is one of the places. */
  lemma {:induction false} PlaceInMatch(profiles: Profiles, mt: Match, i: nat, ask: Ask, n: nat, b: nat)
    requires b < n <= |mt.params| && mt.target.entry in profiles && |profiles[mt.target.entry].details| == |profiles[mt.target.entry].model.parameters|
    requires forall b :: 0 <= b < |mt.params| ==> mt.params[b] < |profiles[mt.target.entry].model.parameters|
    ensures var prof, j := profiles[mt.target.entry], mt.params[b];
            Place(mt.target.entry, j, ask(i, prof.model.parameters[j], prof.details[j])) in MatchPlaces(profiles, mt, i, ask, n)
  {
    if b < n - 1 {
      PlaceInMatch(profiles, mt, i, ask, n - 1, b);
    }
  }

  lemma {:induction false} PlaceListed(profiles: Profiles, matches: seq<Match>, ask: Ask, n: nat, a: nat, b: nat)
    requires a < n <= |matches| && MatchesOk(profiles, matches) && b < |matches[a].params|
    ensures var mt := matches[a];
            var prof, j := profiles[mt.target.entry], mt.params[b];
            Place(mt.target.entry, j, ask(a, prof.model.parameters[j], prof.details[j])) in PlacesOf(profiles, matches, ask, n)
  {
    hide MatchPlaces;
    if a < n - 1 {
      PlaceListed(profiles, matches, ask, n - 1, a, b);
    } else {
      PlaceInMatch(profiles, matches[a], a, ask, |matches[a].params|, b);
    }
  }

  /** The places of a request over what it matched. */
  function RequestPlaces(s: ProgState, matched: Matched, ask: Ask): (ps: seq<Place>)
    requires MatchesOk(s.profiles, matched.matches)
    ensures forall i :: 0 <= i < |ps| ==> PlaceOk(s.profiles, ps[i])
  {
    PlacesOfOk(s.profiles, matched.matches, ask, |matched.matches|);
    PlacesOf(s.profiles, matched.matches, ask, |matched.matches|)
  }

  /** k holds v in values. */
  predicate Holds(values: Values, k: Key, v: uint32) { k in values && values[k] == v }

  /** A request carried out over channels that get along does all it says: every channel of every match
      that could take its value holds it, and the mode masters their functions need are in range. */
  lemma RequestDone(s: ProgState, matched: Matched, ask: Ask, named: bool, a: nat, b: nat)
    requires Valid(s) && MatchesOk(s.profiles, matched.matches) && a < |matched.matches| && b < |matched.matches[a].params|
    requires CommitStep(s, StagedFor(s, matched, ask, named)).1.None?
    requires Compatible(s.profiles, RequestPlaces(s, matched, ask), named)
    ensures var mt := matched.matches[a];
            var prof, j := s.profiles[mt.target.entry], mt.params[b];
            var pl := Place(mt.target.entry, j, ask(a, prof.model.parameters[j], prof.details[j]));
            var next := CommitStep(s, StagedFor(s, matched, ask, named)).0;
            PlaceOk(s.profiles, pl) &&
            (pl.asked.Ok? ==>
              Holds(next.values, PlaceKey(s.profiles, pl.entry, pl.channel), pl.asked.value.value) &&
              var need := MasterOf(s.profiles, pl, named);
              need.Some? ==>
                var cur := Current(next.values, map[], MasterKey(s.profiles, pl, named), s.profiles[pl.entry].details[need.value.channel]);
                cur.Some? && need.value.lo <= cur.value <= need.value.hi)
  {
    var mt := matched.matches[a];
    var prof, j := s.profiles[mt.target.entry], mt.params[b];
    var pl := Place(mt.target.entry, j, ask(a, prof.model.parameters[j], prof.details[j]));
    PlaceListed(s.profiles, matched.matches, ask, |matched.matches|, a, b);
    var places := RequestPlaces(s, matched, ask);
    var i :| 0 <= i < |places| && places[i] == pl;
    hide MatchesOk, Valid, PlacesOf, PlaceAll, Compatible, AppliedCommand, MasterOf, MasterKey, PlaceKey, PlaceOk, Stands;
    AllStand(s.profiles, s.values, places, named, i);
    if pl.asked.Ok? {
      StandsKept(s, PlaceAll(s.profiles, s.values, places, named).pending, pl, named);
    }
  }

  lemma StandsKept(s: ProgState, pending: Values, pl: Place, named: bool)
    requires PlaceOk(s.profiles, pl) && pl.asked.Ok? && Stands(s.profiles, s.values, pending, pl, named)
    ensures Holds(s.values + pending, PlaceKey(s.profiles, pl.entry, pl.channel), pl.asked.value.value)
    ensures var need := MasterOf(s.profiles, pl, named);
            need.Some? ==>
              var cur := Current(s.values + pending, map[], MasterKey(s.profiles, pl, named), s.profiles[pl.entry].details[need.value.channel]);
              cur.Some? && need.value.lo <= cur.value <= need.value.hi
  {
    hide MasterOf, MasterKey, PlaceKey;
  }

  /** Place pl is channel b of match a, with what is asked of it. */
  ghost predicate PlaceFrom(profiles: Profiles, matches: seq<Match>, ask: Ask, pl: Place, a: int, b: int)
  {
    0 <= a < |matches| && 0 <= b < |matches[a].params| && matches[a].target.entry in profiles &&
    var prof, j := profiles[matches[a].target.entry], matches[a].params[b];
    j < |prof.model.parameters| && j < |prof.details| && pl == Place(matches[a].target.entry, j, ask(a, prof.model.parameters[j], prof.details[j]))
  }

  lemma {:induction false} PlacesInMatch(profiles: Profiles, matches: seq<Match>, ask: Ask, i: nat, n: nat)
    requires i < |matches| && n <= |matches[i].params| && MatchesOk(profiles, matches)
    ensures forall pl :: pl in MatchPlaces(profiles, matches[i], i, ask, n) ==> exists b :: PlaceFrom(profiles, matches, ask, pl, i, b)
  {
    if n > 0 {
      PlacesInMatch(profiles, matches, ask, i, n - 1);
      var mt := matches[i];
      var prof, j := profiles[mt.target.entry], mt.params[n - 1];
      assert PlaceFrom(profiles, matches, ask, Place(mt.target.entry, j, ask(i, prof.model.parameters[j], prof.details[j])), i, n - 1);
      hide PlaceFrom;
    }
  }

  /** Nothing is placed but the channels matched. */
  lemma {:induction false} PlacesOnly(profiles: Profiles, matches: seq<Match>, ask: Ask, n: nat)
    requires n <= |matches| && MatchesOk(profiles, matches)
    ensures forall pl :: pl in PlacesOf(profiles, matches, ask, n) ==> exists a, b :: PlaceFrom(profiles, matches, ask, pl, a, b)
  {
    hide PlaceFrom, MatchPlaces, MatchesOk;
    if n > 0 {
      PlacesOnly(profiles, matches, ask, n - 1);
      PlacesInMatch(profiles, matches, ask, n - 1, |matches[n - 1].params|);
    }
  }

  /** k is neither the channel of the place nor the mode master its function needs. */
  ghost predicate Beside(profiles: Profiles, pl: Place, named: bool, k: Key)
    requires PlaceOk(profiles, pl)
  {
    k != PlaceKey(profiles, pl.entry, pl.channel) && (MasterOf(profiles, pl, named).Some? ==> k != MasterKey(profiles, pl, named))
  }

  lemma PlaceTouches(profiles: Profiles, values: Values, staged: Staged, pl: Place, named: bool, k: Key)
    requires PlaceOk(profiles, pl) && Beside(profiles, pl, named, k)
    ensures k in PlaceOne(profiles, values, staged, pl, named).pending ==> k in staged.pending
  {
    hide ActiveFunction, MasterFor, MovedMaster;
  }

  lemma {:induction false} OthersStay(profiles: Profiles, values: Values, places: seq<Place>, named: bool, k: Key)
    requires forall i :: 0 <= i < |places| ==> PlaceOk(profiles, places[i]) && Beside(profiles, places[i], named, k)
    ensures k !in PlaceAll(profiles, values, places, named).pending
  {
    hide PlaceOk, Beside, PlaceOne;
    if places != [] {
      OthersStay(profiles, values, places[..|places| - 1], named, k);
      PlaceTouches(profiles, values, PlaceAll(profiles, values, places[..|places| - 1], named), places[|places| - 1], named, k);
    }
  }

  /** A request changes no value but those of the channels matched and of the mode masters their functions need. */
  lemma RequestOnly(s: ProgState, matched: Matched, ask: Ask, named: bool, k: Key)
    requires Valid(s) && MatchesOk(s.profiles, matched.matches)
    requires forall pl, a, b :: PlaceFrom(s.profiles, matched.matches, ask, pl, a, b) ==> PlaceOk(s.profiles, pl) && Beside(s.profiles, pl, named, k)
    ensures var next := CommitStep(s, StagedFor(s, matched, ask, named)).0;
            (k in next.values <==> k in s.values) && (k in next.values ==> next.values[k] == s.values[k])
  {
    var places := RequestPlaces(s, matched, ask);
    PlacesOnly(s.profiles, matched.matches, ask, |matched.matches|);
    forall i | 0 <= i < |places| ensures Beside(s.profiles, places[i], named, k) {
      assert places[i] in places;
    }
    OthersStay(s.profiles, s.values, places, named, k);
    hide PlaceFrom, Beside, PlacesOf, PlaceAll, AppliedCommand, Valid, MatchesOk;
  }

  /** v is within half a step of the point at share t of the way from a to b. */
  ghost predicate NearLine(a: int, b: int, t: real, v: int)
  {
    -0.5 <= a as real + t * (b - a) as real - v as real <= 0.5
  }

  lemma FanNearLine(a: uint32, b: uint32, t: real)
    requires 0.0 <= t <= 1.0
    ensures NearLine(a, b, t, FanValue(a, b, t))
  {
    FanStraight(a, b, t);
    hide FanValue;
    assert Way(t, b - a) == t * (b - a) as real;
  }

  /** What a fan asks of a channel lies between what its two ends ask of it, on the line from one to the
      other at the position's share, is one of them at the shape's ends, and the 32-bit arithmetic never wraps. */
  lemma FanAsks(from: Request, to: Request, shape: Shape, n: nat, i: nat, p: Parameter, d: ChannelDetail)
    requires n >= 2 && i < n
    ensures var a, b := ResolveValue(from, p, d), ResolveValue(to, p, d);
            var r := FanAsk(from, to, shape, n)(i, p, d);
            (r.Ok? <==> a.Ok? && b.Ok?) &&
            (r.Ok? ==>
              var v, t := r.value.value, Position(shape, i, n);
              v == FanValue(a.value.value, b.value.value, t) &&
              NearLine(a.value.value, b.value.value, t, v) &&
              (if a.value.value <= b.value.value then a.value.value <= v <= b.value.value else b.value.value <= v <= a.value.value) &&
              (t == 0.0 ==> v == a.value.value) && (t == 1.0 ==> v == b.value.value) &&
              r.value.function_ == if from.functionIndex.Some? || from.functionName != "" || from.function_ != "" then a.value.function_ else -1)
  {
    var a, b := ResolveValue(from, p, d), ResolveValue(to, p, d);
    PositionEnds(shape, i, n);
    if a.Ok? && b.Ok? {
      FanStraight(a.value.value, b.value.value, Position(shape, i, n));
      FanNearLine(a.value.value, b.value.value, Position(shape, i, n));
      hide NearLine, ResolveValue, FanValue, Position, Way;
      WrapsNot(FanValue(a.value.value, b.value.value, Position(shape, i, n)));
    }
  }
}
