/** The probe gate: one device's SUPPORTED_PARAMETERS cache and the check it makes before a speculative
    GET (ANSI E1.20 section 10.4.1: an optional parameter a device does not list is not supported). */
module ProbeGate {
  import opened Prelude

  type Pid = uint16

  const MAX_SILENT_ATTEMPTS := 2

  /** What came of one GET: data that decodes as a parameter list or does not, a refusal the device
      sent, nothing at all, or a refusal made before anything was sent. */
  datatype Outcome = Acked(pids: Option<seq<Pid>>) | Nacked | Silence | NotSent

  /** The cache of one device. flight is the resolution under way, numbered from 0; flights counts them. */
  datatype Cache = Cache(
    supported: set<Pid>,
    known: bool,
    attempted: bool,
    silent: nat,
    flight: Option<nat>,
    flights: nat,
    unsupported: set<Pid>)

  const EMPTY_CACHE := Cache({}, false, false, 0, None, 0, {})

  /** How a caller of the resolution goes on: with an answer, or by waiting for a flight, or by flying one. */
  datatype Verdict = Have(known: bool, supported: set<Pid>) | Join(flight: nat) | Fly(flight: nat)

  predicate IsAnswer(o: Outcome)
  {
    o.Acked? || o.Nacked?
  }

  /** One outcome folded into the cache. live: the reader had not given up. */
  function Recorded(c: Cache, o: Outcome, live: bool): Cache
  {
    if c.known then c
    else match o
      case Acked(Some(pids)) => c.(supported := (set p | p in pids), known := true, attempted := true)
      case Acked(None) => c.(attempted := true)
      case NotSent => c
      case Silence => if live then c.(silent := c.silent + 1) else c
      case Nacked => if live then c.(attempted := true) else c
  }

  function Resolve(c: Cache): (Verdict, Cache)
  {
    if c.known then (Have(true, c.supported), c)
    else if c.attempted || c.silent >= MAX_SILENT_ATTEMPTS then (Have(false, {}), c)
    else if c.flight.Some? then (Join(c.flight.value), c)
    else (Fly(c.flights), c.(flight := Some(c.flights), flights := c.flights + 1))
  }

  function Landed(c: Cache, o: Outcome, live: bool): Cache
  {
    Recorded(c, o, live).(flight := None)
  }

  /** Why the gate lets a GET through: the device lists the parameter, or it has answered and its
      answers leave open what it supports. */
  datatype Pass = Listed | FailedOpen

  datatype Refusal = NotAdvertised | NotAnswering

  /** The gate's last look at the cache, after a resolution that ended with known and supported. */
  function Decide(c: Cache, pid: Pid, known: bool, supported: set<Pid>): Result<Pass, Refusal>
  {
    if known then (if pid in supported then Ok(Listed) else Err(NotAdvertised))
    else if !c.attempted && c.silent > 0 then Err(NotAnswering)
    else Ok(FailedOpen)
  }

  /** The cache under its lock: each method is one locked section. */
  class UidState {
    var supportedSet: set<Pid>
    var supportedKnown: bool
    var supportedAttempted: bool
    var supportedSilentAttempts: nat
    var supportedFlight: Option<nat>
    var flights: nat
    var unsupportedPIDs: set<Pid>

    function State(): Cache
      reads this
    {
      Cache(supportedSet, supportedKnown, supportedAttempted, supportedSilentAttempts, supportedFlight, flights, unsupportedPIDs)
    }

    constructor ()
      ensures State() == EMPTY_CACHE
    {
      supportedSet, supportedKnown, supportedAttempted := {}, false, false;
      supportedSilentAttempts, supportedFlight, flights, unsupportedPIDs := 0, None, 0, {};
    }

    method RecordOutcome(o: Outcome, live: bool)
      modifies this
      ensures State() == Recorded(old(State()), o, live)
    {
      if supportedKnown {
        return;
      }
      if o.Acked? {
        if o.pids.None? {
          supportedAttempted := true;
          return;
        }
        var m: set<Pid> := {};
        for i := 0 to |o.pids.value|
          invariant m == set p | p in o.pids.value[..i]
          invariant State() == old(State())
        {
          assert o.pids.value[..i + 1] == o.pids.value[..i] + [o.pids.value[i]];
          m := m + {o.pids.value[i]};
        }
        assert o.pids.value[..|o.pids.value|] == o.pids.value;
        supportedSet, supportedKnown, supportedAttempted := m, true, true;
        return;
      }
      if o.NotSent? || !live {
        return;
      }
      if o.Silence? {
        supportedSilentAttempts := supportedSilentAttempts + 1;
        return;
      }
      supportedAttempted := true;
    }

    /** The head of a resolution: the answer if there is one, else the flight to wait for or to fly. */
    method BeginResolve() returns (v: Verdict)
      modifies this`supportedFlight, this`flights
      ensures (v, State()) == Resolve(old(State()))
    {
      if supportedKnown {
        return Have(true, supportedSet);
      }
      if supportedAttempted {
        return Have(false, {});
      }
      if supportedSilentAttempts >= MAX_SILENT_ATTEMPTS {
        return Have(false, {});
      }
      if supportedFlight.Some? {
        return Join(supportedFlight.value);
      }
      v := Fly(flights);
      supportedFlight, flights := Some(flights), flights + 1;
    }

    /** The end of a flight: its outcome is recorded and whoever waits is let go. */
    method EndResolve(o: Outcome, live: bool) returns (known: bool, supported: set<Pid>)
      modifies this
      ensures State() == Landed(old(State()), o, live) && known == State().known && supported == State().supported
    {
      RecordOutcome(o, live);
      supportedFlight := None;
      known, supported := supportedKnown, supportedSet;
    }

    method RememberUnsupported(pid: Pid)
      modifies this`unsupportedPIDs
      ensures State() == old(State()).(unsupported := old(State()).unsupported + {pid})
    {
      unsupportedPIDs := unsupportedPIDs + {pid};
    }
  }

  // ---------------------------------------------------------------- many callers over one cache

  /** Where one caller is. A gated GET looks at what was learned, resolves, and decides; it then is on
      the wire. A caller that only wants the list stops once it is told. */
  datatype Phase =
    | Idle
    | Looking(pid: Pid)
    | Resolving(gate: Option<Pid>)
    | Flying(gate: Option<Pid>, flight: nat)
    | Waiting(gate: Option<Pid>, flight: nat)
    | Told(gate: Option<Pid>, known: bool, supported: set<Pid>)
    | Refused(pid: Pid, why: Refusal)
    | Passed(pid: Pid, how: Pass)
    | Finished

  datatype Caller = Caller(phase: Phase, live: bool)

  /** abandoned counts the flights whose caller had given up by the time they landed. */
  datatype System = System(cache: Cache, callers: map<nat, Caller>, abandoned: nat)

  function Put(s: System, c: nat, phase: Phase): System
    requires c in s.callers
  {
    s.(callers := s.callers[c := s.callers[c].(phase := phase)])
  }

  datatype Action =
    | Get(pid: Pid)
    | Ask
    | Look
    | Begin
    | Land(outcome: Outcome)
    | Wake
    | GiveUpWaiting
    | Gate
    | Answered(outcome: Outcome, unknownPid: bool)
    | Cancel
    | Note(outcome: Outcome, live: bool)

  /** Caller c can take action a. */
  predicate Enabled(s: System, c: nat, a: Action)
  {
    c in s.callers &&
    var me := s.callers[c];
    match a
    case Get(_) => me.phase.Idle?
    case Ask => me.phase.Idle?
    case Look => me.phase.Looking?
    case Begin => me.phase.Resolving?
    case Land(o) => me.phase.Flying? && !o.NotSent?
    case Wake => me.phase.Waiting? && s.cache.flight != Some(me.phase.flight)
    case GiveUpWaiting => me.phase.Waiting? && !me.live
    case Gate => me.phase.Told? && me.phase.gate.Some?
    case Answered(_, _) => me.phase.Passed?
    case Cancel => true
    case Note(_, _) => true
  }

  /** Nothing but where a caller is holds it up: an idle one may begin, each further step follows the one
      before, a waiting caller wakes once the flight it waits for has ended, a silent transaction ends like any
      other; giving up needs a context that ended, which it may at any time, as a list read by hand may come in. */
  lemma StepsFree(s: System, c: nat)
    requires c in s.callers
    ensures var phase := s.callers[c].phase;
            (phase.Idle? ==> Enabled(s, c, Ask) && forall pid :: Enabled(s, c, Get(pid))) && (phase.Looking? ==> Enabled(s, c, Look)) &&
            (phase.Resolving? ==> Enabled(s, c, Begin)) && (phase.Flying? ==> forall o: Outcome :: !o.NotSent? ==> Enabled(s, c, Land(o))) &&
            (phase.Waiting? && s.cache.flight != Some(phase.flight) ==> Enabled(s, c, Wake)) &&
            (phase.Waiting? && !s.callers[c].live ==> Enabled(s, c, GiveUpWaiting)) && (phase.Told? && phase.gate.Some? ==> Enabled(s, c, Gate)) &&
            (phase.Passed? ==> forall o, unknown :: Enabled(s, c, Answered(o, unknown))) &&
            Enabled(s, c, Cancel) && forall o, live :: Enabled(s, c, Note(o, live))
  {}

  function Next(s: System, c: nat, a: Action): System
    requires Enabled(s, c, a)
  {
    var me, cache := s.callers[c], s.cache;
    match a
    case Get(pid) => Put(s, c, Looking(pid))
    case Ask => Put(s, c, Resolving(None))
    case Look => Put(s, c, if me.phase.pid in cache.unsupported then Refused(me.phase.pid, NotAdvertised) else Resolving(Some(me.phase.pid)))
    case Begin =>
      var (v, cache') := Resolve(cache);
      Put(s.(cache := cache'), c,
          match v
          case Have(known, supported) => Told(me.phase.gate, known, supported)
          case Join(flight) => Waiting(me.phase.gate, flight)
          case Fly(flight) => Flying(me.phase.gate, flight))
    case Land(o) =>
      var cache' := Landed(cache, o, me.live);
      Put(s.(cache := cache', abandoned := s.abandoned + if me.live then 0 else 1), c, Told(me.phase.gate, cache'.known, cache'.supported))
    case Wake => Put(s, c, Told(me.phase.gate, cache.known, cache.supported))
    case GiveUpWaiting => Put(s, c, Told(me.phase.gate, false, {}))
    case Gate =>
      Put(s, c, match Decide(cache, me.phase.gate.value, me.phase.known, me.phase.supported)
                case Ok(how) => Passed(me.phase.gate.value, how)
                case Err(why) => Refused(me.phase.gate.value, why))
    case Answered(o, unknownPid) =>
      Put(if o.Nacked? && unknownPid then s.(cache := cache.(unsupported := cache.unsupported + {me.phase.pid})) else s, c, Finished)
    case Cancel => s.(callers := s.callers[c := me.(live := false)])
    case Note(o, live) => s.(cache := Recorded(cache, o, live))
  }

  /** A caller has a flight of its own exactly while that flight is the one under way. */
  ghost predicate OneFlight(s: System)
  {
    (forall c :: c in s.callers && s.callers[c].phase.Flying? ==> s.cache.flight == Some(s.callers[c].phase.flight)) &&
    (forall c, d :: c in s.callers && d in s.callers && s.callers[c].phase.Flying? && s.callers[d].phase.Flying? ==> c == d) &&
    (s.cache.flight.Some? ==> exists c :: c in s.callers && s.callers[c].phase.Flying?)
  }

  /** What is left of the two asks: every ask that is over was answered, drew silence or was abandoned. */
  ghost predicate Budget(s: System)
  {
    var over := s.cache.flights - if s.cache.flight.Some? then 1 else 0;
    (s.cache.flight.Some? ==> s.cache.flight.value == s.cache.flights - 1) &&
    (s.cache.flight.Some? ==> over <= s.cache.silent + s.abandoned) &&
    over <= s.cache.silent + s.abandoned + (if s.cache.attempted then 1 else 0) &&
    s.cache.flights <= MAX_SILENT_ATTEMPTS + s.abandoned &&
    (s.cache.known ==> s.cache.attempted)
  }

  /** What a live caller knows of the device, so long as no flight was abandoned. */
  ghost predicate PhaseOk(s: System, c: nat)
    requires c in s.callers
  {
    var heard := s.cache.attempted || s.cache.silent > 0;
    match s.callers[c].phase
    case Waiting(_, flight) => flight < s.cache.flights
    case Told(_, true, supported) => s.cache.known && supported == s.cache.supported
    case Told(_, false, _) => s.callers[c].live && s.abandoned == 0 ==> heard
    case Passed(pid, Listed) => s.cache.known && pid in s.cache.supported
    case Passed(_, FailedOpen) => s.callers[c].live && s.abandoned == 0 ==> s.cache.attempted
    case _ => true
  }

  ghost predicate Inv(s: System)
  {
    OneFlight(s) && Budget(s) && (forall c :: c in s.callers ==> PhaseOk(s, c)) &&
    (s.cache.flights > 0 && s.cache.flight.None? && s.abandoned == 0 ==> s.cache.attempted || s.cache.silent > 0) &&
    (s.cache.flights > 1 && s.abandoned == 0 ==> s.cache.attempted || s.cache.silent > 0)
  }

  lemma StepKeepsOneFlight(s: System, c: nat, a: Action)
    requires Inv(s) && Enabled(s, c, a)
    ensures OneFlight(Next(s, c, a))
  {
    hide PhaseOk, Decide;
    var next := Next(s, c, a);
    if next.cache.flight.Some? {
      if a.Begin? && next.callers[c].phase.Flying? {
      } else {
        var d :| d in s.callers && s.callers[d].phase.Flying?;
        assert next.callers[d].phase.Flying?;
      }
    }
  }

  lemma StepKeepsPhase(s: System, c: nat, a: Action, d: nat)
    requires Inv(s) && Enabled(s, c, a) && d in Next(s, c, a).callers
    ensures PhaseOk(Next(s, c, a), d)
  {
    assert PhaseOk(s, d) && PhaseOk(s, c);
    hide OneFlight;
  }

  lemma StepKeepsInv(s: System, c: nat, a: Action)
    requires Inv(s) && Enabled(s, c, a)
    ensures Inv(Next(s, c, a))
  {
    StepKeepsOneFlight(s, c, a);
    forall d | d in Next(s, c, a).callers ensures PhaseOk(Next(s, c, a), d) {
      StepKeepsPhase(s, c, a, d);
    }
    hide OneFlight, PhaseOk, Decide;
  }

  // ---------------------------------------------------------------- whole runs

  datatype Step = Step(caller: nat, action: Action)

  ghost predicate Fresh(s: System)
  {
    s.cache == EMPTY_CACHE && s.abandoned == 0 && forall c :: c in s.callers ==> s.callers[c] == Caller(Idle, true)
  }

  ghost predicate Taken(states: seq<System>, steps: seq<Step>, i: nat)
    requires |states| == |steps| + 1 && i < |steps|
  {
    Enabled(states[i], steps[i].caller, steps[i].action) && states[i + 1] == Next(states[i], steps[i].caller, steps[i].action)
  }

  /** An interleaving of any number of callers over a device nothing is known of. */
  ghost predicate IsRun(states: seq<System>, steps: seq<Step>)
  {
    |states| == |steps| + 1 && Fresh(states[0]) && forall i :: 0 <= i < |steps| ==> Taken(states, steps, i)
  }

  lemma {:induction false} RunKeepsInv(states: seq<System>, steps: seq<Step>, i: nat)
    requires IsRun(states, steps) && i <= |steps|
    ensures Inv(states[i])
  {
    if i == 0 {
      assert OneFlight(states[0]);
    } else {
      RunKeepsInv(states, steps, i - 1);
      hide Inv, Next, Enabled;
      assert Taken(states, steps, i - 1);
      StepKeepsInv(states[i - 1], steps[i - 1].caller, steps[i - 1].action);
    }
  }

  /** At most one resolution is under way, and a device is asked for its list at most twice, whatever
      it does, plus once for every ask its caller gave up on. */
  lemma AtMostTwoAsks(states: seq<System>, steps: seq<Step>, i: nat)
    requires IsRun(states, steps) && i <= |steps|
    ensures forall c, d :: c in states[i].callers && d in states[i].callers && states[i].callers[c].phase.Flying? && states[i].callers[d].phase.Flying? ==> c == d
    ensures states[i].cache.flights <= 2 + states[i].abandoned
  {
    RunKeepsInv(states, steps, i);
  }

  /** While no caller gives up, no ask is abandoned. */
  lemma {:induction false} NobodyGaveUp(states: seq<System>, steps: seq<Step>, i: nat)
    requires IsRun(states, steps) && i <= |steps| && forall j :: 0 <= j < i ==> !steps[j].action.Cancel?
    ensures states[i].abandoned == 0 && forall c :: c in states[i].callers ==> states[i].callers[c].live
  {
    if i > 0 {
      NobodyGaveUp(states, steps, i - 1);
      hide Recorded, Resolve, Landed, Decide;
      assert Taken(states, steps, i - 1);
    }
  }

  lemma StepKeepsKnown(s: System, c: nat, a: Action)
    requires Enabled(s, c, a)
    ensures s.cache.known ==> Next(s, c, a).cache.known && Next(s, c, a).cache.supported == s.cache.supported
    ensures s.cache.unsupported <= Next(s, c, a).cache.unsupported
    ensures s.cache.attempted ==> Next(s, c, a).cache.attempted
  {}

  /** A list once known stays the list, and a parameter once refused stays refused. */
  lemma {:induction false} KnownForGood(states: seq<System>, steps: seq<Step>, i: nat, j: nat)
    requires IsRun(states, steps) && i <= j <= |steps|
    ensures states[i].cache.known ==> states[j].cache.known && states[j].cache.supported == states[i].cache.supported
    ensures states[i].cache.unsupported <= states[j].cache.unsupported
    decreases j
  {
    if i < j {
      KnownForGood(states, steps, i, j - 1);
      hide Next, Enabled;
      assert Taken(states, steps, j - 1);
      StepKeepsKnown(states[j - 1], steps[j - 1].caller, steps[j - 1].action);
    }
  }

  /** What a speculative GET on the wire rests on, where nobody gave up: the device's list names the
      parameter, or the device has answered the question for its list. */
  lemma GateOpensOn(states: seq<System>, steps: seq<Step>, i: nat, c: nat)
    requires IsRun(states, steps) && i <= |steps| && states[i].abandoned == 0
    requires c in states[i].callers && states[i].callers[c].live && states[i].callers[c].phase.Passed?
    ensures var phase := states[i].callers[c].phase;
            if phase.how.Listed? then states[i].cache.known && phase.pid in states[i].cache.supported else states[i].cache.attempted
  {
    RunKeepsInv(states, steps, i);
    assert PhaseOk(states[i], c);
    hide OneFlight;
  }

  /** The outcome of an ask, if the step ends one. */
  function OutcomeOf(a: Action): Option<Outcome>
  {
    match a
    case Land(o) => Some(o)
    case Note(o, _) => Some(o)
    case _ => None
  }

  lemma {:induction false} OnlySilence(states: seq<System>, steps: seq<Step>, i: nat)
    requires IsRun(states, steps) && i <= |steps|
    requires forall j :: 0 <= j < i && OutcomeOf(steps[j].action).Some? ==> !IsAnswer(OutcomeOf(steps[j].action).value)
    ensures !states[i].cache.attempted && !states[i].cache.known
  {
    if i > 0 {
      OnlySilence(states, steps, i - 1);
      assert Taken(states, steps, i - 1);
    }
  }

  /** A device that has only ever been silent gets no speculative GET at all. */
  lemma SilentDeviceNotProbed(states: seq<System>, steps: seq<Step>, i: nat, c: nat)
    requires IsRun(states, steps) && i <= |steps| && forall j :: 0 <= j < i ==> !steps[j].action.Cancel?
    requires forall j :: 0 <= j < i && OutcomeOf(steps[j].action).Some? ==> !IsAnswer(OutcomeOf(steps[j].action).value)
    requires c in states[i].callers
    ensures !states[i].callers[c].phase.Passed?
  {
    NobodyGaveUp(states, steps, i);
    OnlySilence(states, steps, i);
    if states[i].callers[c].phase.Passed? {
      GateOpensOn(states, steps, i, c);
    }
  }

  /** c will not ask the device for pid: the device is known to refuse it and c has yet to look. */
  ghost predicate Barred(s: System, c: nat, pid: Pid)
  {
    pid in s.cache.unsupported && c in s.callers &&
    match s.callers[c].phase
    case Idle => true
    case Looking(_) => true
    case Resolving(gate) => gate != Some(pid)
    case Flying(gate, _) => gate != Some(pid)
    case Waiting(gate, _) => gate != Some(pid)
    case Told(gate, _, _) => gate != Some(pid)
    case Passed(p, _) => p != pid
    case _ => true
  }

  /** Once a device has answered a parameter with an unknown-PID refusal, no GET that begins
      afterwards asks it for that parameter again. */
  lemma NeverAfterRefusal(states: seq<System>, steps: seq<Step>, n: nat, i: nat, j: nat, c: nat, pid: Pid)
    requires IsRun(states, steps) && n < i <= j <= |steps| && RefusedAsUnknown(states[n], steps[n].caller, steps[n].action, pid)
    requires c in states[i].callers && (states[i].callers[c].phase.Idle? || states[i].callers[c].phase.Looking?)
    ensures c in states[j].callers && !(states[j].callers[c].phase.Passed? && states[j].callers[c].phase.pid == pid)
  {
    assert Taken(states, steps, n);
    RememberExactly(states[n], steps[n].caller, steps[n].action, pid);
    KnownForGood(states, steps, n + 1, i);
    NotAfterLearned(states, steps, i, j, c, pid);
  }

  /** The answer to a GET for pid: the device refuses the parameter as unknown. */
  predicate RefusedAsUnknown(s: System, c: nat, a: Action, pid: Pid)
  {
    c in s.callers && s.callers[c].phase.Passed? && s.callers[c].phase.pid == pid && a.Answered? && a.outcome.Nacked? && a.unknownPid
  }

  /** That is remembered, and nothing else is. */
  lemma RememberExactly(s: System, c: nat, a: Action, pid: Pid)
    requires Enabled(s, c, a)
    ensures pid in Next(s, c, a).cache.unsupported <==> pid in s.cache.unsupported || RefusedAsUnknown(s, c, a, pid)
  {}

  lemma {:induction false} NotAfterLearned(states: seq<System>, steps: seq<Step>, i: nat, j: nat, c: nat, pid: Pid)
    requires IsRun(states, steps) && i <= j <= |steps| && pid in states[i].cache.unsupported
    requires c in states[i].callers && (states[i].callers[c].phase.Idle? || states[i].callers[c].phase.Looking?)
    ensures Barred(states[j], c, pid)
    ensures !(states[j].callers[c].phase.Passed? && states[j].callers[c].phase.pid == pid)
    decreases j
  {
    hide Next, Enabled, Barred;
    if i < j {
      NotAfterLearned(states, steps, i, j - 1, c, pid);
      assert Taken(states, steps, j - 1);
      BarredStep(states[j - 1], steps[j - 1].caller, steps[j - 1].action, c, pid);
    } else {
      BarredFirst(states[i], c, pid);
    }
    BarredNotPassed(states[j], c, pid);
  }

  lemma BarredStep(s: System, d: nat, a: Action, c: nat, pid: Pid)
    requires Enabled(s, d, a) && Barred(s, c, pid)
    ensures Barred(Next(s, d, a), c, pid)
  {
    StepKeepsKnown(s, d, a);
    hide Recorded, Landed, Decide;
  }

  lemma BarredFirst(s: System, c: nat, pid: Pid)
    requires pid in s.cache.unsupported && c in s.callers && (s.callers[c].phase.Idle? || s.callers[c].phase.Looking?)
    ensures Barred(s, c, pid)
  {}

  lemma BarredNotPassed(s: System, c: nat, pid: Pid)
    requires Barred(s, c, pid)
    ensures !(s.callers[c].phase.Passed? && s.callers[c].phase.pid == pid)
  {}

  // ---------------------------------------------------------------- a pass against the list

  /** The list is known and does not name the parameter. The gate lets the GET through all the same
      exactly when the caller's own resolution had ended without the list, which came in later: the last
      look at the cache then takes the answer for an unusable one. */
  lemma PassAgainstList(s: System, c: nat)
    requires Inv(s) && Enabled(s, c, Gate) && s.cache.known && s.callers[c].phase.gate.value !in s.cache.supported
    ensures Next(s, c, Gate).callers[c].phase.Passed? <==> !s.callers[c].phase.known
  {
    assert PhaseOk(s, c);
    hide OneFlight;
  }

  /** It happens: the first ask draws silence, a second caller's ask is answered with an empty list,
      and only then the first caller takes its last look. */
  lemma LateList(pid: Pid) returns (states: seq<System>, steps: seq<Step>)
    ensures IsRun(states, steps) && |steps| == 8 && forall i :: 0 <= i < |steps| ==> !steps[i].action.Cancel?
    ensures states[8].cache.known && pid !in states[8].cache.supported
    ensures 0 in states[8].callers && states[8].callers[0].phase == Passed(pid, FailedOpen)
  {
    var s0 := System(EMPTY_CACHE, map[0 := Caller(Idle, true), 1 := Caller(Idle, true)], 0);
    var s1 := Next(s0, 0, Get(pid));
    var s2 := Next(s1, 0, Look);
    var s3 := Next(s2, 0, Begin);
    var s4 := Next(s3, 0, Land(Silence));
    var s5 := Next(s4, 1, Ask);
    var s6 := Next(s5, 1, Begin);
    var s7 := Next(s6, 1, Land(Acked(Some([]))));
    var s8 := Next(s7, 0, Gate);
    states := [s0, s1, s2, s3, s4, s5, s6, s7, s8];
    steps := [Step(0, Get(pid)), Step(0, Look), Step(0, Begin), Step(0, Land(Silence)),
              Step(1, Ask), Step(1, Begin), Step(1, Land(Acked(Some([])))), Step(0, Gate)];
  }

  // ---------------------------------------------------------------- what each look at the cache decides

  /** The last look. A caller told a list passes exactly when the list names its parameter; one that was
      told none is refused exactly while the device has drawn silence and never answered. */
  lemma GateExactly(s: System, c: nat)
    requires Enabled(s, c, Gate)
    ensures var me, now := s.callers[c].phase, Next(s, c, Gate).callers[c].phase;
            var pid := me.gate.value;
            (now == Passed(pid, Listed) <==> me.known && pid in me.supported) &&
            (now == Refused(pid, NotAdvertised) <==> me.known && pid !in me.supported) &&
            (now == Refused(pid, NotAnswering) <==> !me.known && !s.cache.attempted && s.cache.silent > 0) &&
            (now == Passed(pid, FailedOpen) <==> !me.known && (s.cache.attempted || s.cache.silent == 0))
  {}

  /** The look at what was learned: only a remembered refusal stops a GET there. */
  lemma LookExactly(s: System, c: nat)
    requires Enabled(s, c, Look)
    ensures var pid, now := s.callers[c].phase.pid, Next(s, c, Look).callers[c].phase;
            (now == Refused(pid, NotAdvertised) <==> pid in s.cache.unsupported) && (now == Resolving(Some(pid)) <==> pid !in s.cache.unsupported)
  {}

  /** The head of a resolution. The device is asked unless its list is known, it has answered, it has been
      silent twice, or somebody is asking; a caller is told the known list and nothing else. */
  lemma BeginExactly(s: System, c: nat)
    requires Enabled(s, c, Begin)
    ensures var me, now, cache := s.callers[c].phase, Next(s, c, Begin).callers[c].phase, s.cache;
            var over := cache.attempted || cache.silent >= 2;
            (now == Told(me.gate, true, cache.supported) <==> cache.known) &&
            (now == Told(me.gate, false, {}) <==> !cache.known && over) &&
            (now.Waiting? <==> !cache.known && !over && cache.flight.Some?) &&
            (now.Flying? <==> !cache.known && !over && cache.flight.None?)
  {}

  /** What an outcome leaves in the cache. A list is kept from the first answer that decodes, whoever still waits
      for it; any answer is an answer, but a refusal only where somebody waits for it, and so is silence counted;
      what never went out says nothing. A known list is not touched again. */
  lemma OutcomeExactly(c: Cache, o: Outcome, live: bool)
    ensures var now := Recorded(c, o, live);
            now.unsupported == c.unsupported && now.flight == c.flight && now.flights == c.flights && (c.known ==> now == c) &&
            (!c.known ==>
              (now.known <==> o.Acked? && o.pids.Some?) && (!now.known ==> now.supported == c.supported) &&
              (now.known ==> forall p :: p in now.supported <==> p in o.pids.value) &&
              (now.attempted <==> c.attempted || o.Acked? || (o.Nacked? && live)) &&
              now.silent == c.silent + if o.Silence? && live then 1 else 0)
  {}

  /** A flight that lands leaves its outcome and ends, and its caller is told what is then known, as one that waited
      is; one that gives up waiting is told nothing. A list read by hand leaves its outcome and nothing else. */
  lemma LandExactly(s: System, c: nat, a: Action)
    requires Enabled(s, c, a)
    ensures var next, me := Next(s, c, a), s.callers[c];
            (a.Land? ==> next.cache == Recorded(s.cache, a.outcome, me.live).(flight := None) &&
                         next.callers[c].phase == Told(me.phase.gate, next.cache.known, next.cache.supported)) &&
            (a.Wake? ==> next.cache == s.cache && next.callers[c].phase == Told(me.phase.gate, s.cache.known, s.cache.supported)) &&
            (a.GiveUpWaiting? ==> next.cache == s.cache && next.callers[c].phase == Told(me.phase.gate, false, {})) &&
            (a.Note? ==> next == s.(cache := Recorded(s.cache, a.outcome, a.live))) &&
            (a.Cancel? ==> next.cache == s.cache && next.callers[c] == me.(live := false)) &&
            forall d :: d in s.callers && d != c ==> d in next.callers && next.callers[d] == s.callers[d]
  {
    hide Recorded;
  }

  /** A GET for a listed parameter that the device never refused goes out. */
  lemma ListedGoesOut(s: System, c: nat, pid: Pid) returns (s1: System, s2: System, s3: System, s4: System)
    requires c in s.callers && s.callers[c].phase.Idle? && s.cache.known && pid in s.cache.supported && pid !in s.cache.unsupported
    ensures Enabled(s, c, Get(pid)) && s1 == Next(s, c, Get(pid)) && Enabled(s1, c, Look) && s2 == Next(s1, c, Look)
    ensures Enabled(s2, c, Begin) && s3 == Next(s2, c, Begin) && Enabled(s3, c, Gate) && s4 == Next(s3, c, Gate)
    ensures s4.callers[c].phase == Passed(pid, Listed)
  {
    s1 := Next(s, c, Get(pid));
    s2 := Next(s1, c, Look);
    s3 := Next(s2, c, Begin);
    s4 := Next(s3, c, Gate);
  }

  ghost predicate RefusedFor(s: System, c: nat, pid: Pid)
  {
    c in s.callers && s.callers[c].phase.Refused? && s.callers[c].phase.pid == pid
  }

  /** Once the list is known and names a parameter, nobody is refused that parameter, however far along they
      were, so long as the device itself has not refused it. */
  lemma {:induction false} ListedNotRefused(states: seq<System>, steps: seq<Step>, i: nat, j: nat, c: nat, pid: Pid)
    requires IsRun(states, steps) && i <= j <= |steps|
    requires states[i].cache.known && pid in states[i].cache.supported && !RefusedFor(states[i], c, pid) && pid !in states[j].cache.unsupported
    ensures !RefusedFor(states[j], c, pid)
    decreases j
  {
    hide Next, Enabled, Inv, Fresh, RefusedFor;
    if i < j {
      KnownForGood(states, steps, i, j - 1);
      KnownForGood(states, steps, j - 1, j);
      ListedNotRefused(states, steps, i, j - 1, c, pid);
      RunKeepsInv(states, steps, j - 1);
      assert Taken(states, steps, j - 1);
      NotRefusedStep(states[j - 1], steps[j - 1].caller, steps[j - 1].action, c, pid);
    }
  }

  lemma NotRefusedStep(s: System, d: nat, a: Action, c: nat, pid: Pid)
    requires Inv(s) && Enabled(s, d, a) && s.cache.known && pid in s.cache.supported && pid !in s.cache.unsupported && !RefusedFor(s, c, pid)
    ensures !RefusedFor(Next(s, d, a), c, pid)
  {
    assert PhaseOk(s, d);
    hide OneFlight;
  }

  /** The list known is the one the device sent: exactly the parameters of the first answer that decodes. */
  lemma {:induction false} ListAsSent(states: seq<System>, steps: seq<Step>, i: nat) returns (k: nat)
    requires IsRun(states, steps) && i <= |steps| && states[i].cache.known
    ensures k < i && OutcomeOf(steps[k].action).Some? && OutcomeOf(steps[k].action).value.Acked? && OutcomeOf(steps[k].action).value.pids.Some?
    ensures forall p :: p in states[i].cache.supported <==> p in OutcomeOf(steps[k].action).value.pids.value
    ensures !states[k].cache.known
  {
    assert i > 0;
    assert Taken(states, steps, i - 1);
    if states[i - 1].cache.known {
      k := ListAsSent(states, steps, i - 1);
      StepKeepsKnown(states[i - 1], steps[i - 1].caller, steps[i - 1].action);
    } else {
      k := i - 1;
    }
  }
}
