/** The core-identity pass: the six parameters a device row is built from, asked one at a time. */
module CoreIdentity {
  import opened Prelude
  import opened ProbeGate

  const DEVICE_INFO: Pid := 0x0060
  const SUPPORTED_PARAMETERS: Pid := 0x0050
  const PRODUCT_DETAIL_ID_LIST: Pid := 0x0070
  const PROXIED_DEVICE_COUNT: Pid := 0x0011
  const DEVICE_MODEL_DESCRIPTION: Pid := 0x0080
  const MANUFACTURER_LABEL: Pid := 0x0081

  const CORE_PIDS: seq<Pid> :=
    [DEVICE_INFO, SUPPORTED_PARAMETERS, PRODUCT_DETAIL_ID_LIST, PROXIED_DEVICE_COUNT, DEVICE_MODEL_DESCRIPTION, MANUFACTURER_LABEL]

  /** The two of them that are optional, and so asked only where the gate lets them. */
  predicate Gated(pid: Pid)
  {
    pid == PRODUCT_DETAIL_ID_LIST || pid == PROXIED_DEVICE_COUNT
  }

  datatype CoreRead = CoreRead(pid: Pid, outcome: Outcome, onWire: bool)

  datatype CoreResult = CoreResult(log: seq<CoreRead>, haveDeviceInfo: bool, silent: bool, answered: bool)

  /** The device's answer to the n-th transaction, whether a refusal is for an unknown parameter, and when the caller's context ends, in half log. */
  datatype World = World(answer: nat -> Outcome, unknownPid: nat -> bool, ends: Option<nat>)

  predicate Live(w: World, at: nat)
  {
    w.ends.None? || at < w.ends.value
  }

  ghost predicate Truthful(w: World)
  {
    forall n :: !w.answer(n).NotSent?
  }

  /** What one caller's pass through the gate does to the cache. */
  function Gauged(c: Cache, pid: Pid, o: Outcome, live: bool): Cache
  {
    if pid in c.unsupported then c
    else match Resolve(c).0
      case Have(_, _) => c
      case _ => Landed(Resolve(c).1, o, live)
  }

  predicate AsksList(c: Cache, pid: Pid)
  {
    pid !in c.unsupported && Resolve(c).0.Fly?
  }

  method EnsureAdvertised(st: UidState, pid: Pid, w: World, n: nat, live: bool) returns (verdict: Result<Pass, Refusal>, n': nat)
    requires st.supportedFlight.None? && Truthful(w)
    modifies st
    ensures st.State() == Gauged(old(st.State()), pid, w.answer(n), live)
    ensures n' == n + if AsksList(old(st.State()), pid) then 1 else 0
    ensures verdict == Err(NotAdvertised) <==> pid in old(st.unsupportedPIDs) || (st.supportedKnown && pid !in st.supportedSet)
    ensures verdict == Ok(Listed) <==> pid !in old(st.unsupportedPIDs) && st.supportedKnown && pid in st.supportedSet
    ensures verdict == Err(NotAnswering) <==>
              pid !in old(st.unsupportedPIDs) && !st.supportedKnown && !st.supportedAttempted && st.supportedSilentAttempts > 0
    ensures verdict == Ok(FailedOpen) <==>
              pid !in old(st.unsupportedPIDs) && !st.supportedKnown && (st.supportedAttempted || st.supportedSilentAttempts == 0)
  {
    n' := n;
    if pid in st.unsupportedPIDs {
      return Err(NotAdvertised), n;
    }
    var v := st.BeginResolve();
    var known, supported;
    match v {
      case Have(k, s) => known, supported := k, s;
      case Fly(_) =>
        known, supported := st.EndResolve(w.answer(n), live);
        n' := n + 1;
    }
    if known {
      return if pid in supported then Ok(Listed) else Err(NotAdvertised), n';
    }
    if !st.supportedAttempted && st.supportedSilentAttempts > 0 {
      return Err(NotAnswering), n';
    }
    return Ok(FailedOpen), n';
  }

  /** How many reads of log were of pid and cost a transaction. */
  function Sent(log: seq<CoreRead>, pid: Pid): nat
  {
    if log == [] then 0
    else Sent(log[..|log| - 1], pid) + if log[|log| - 1].pid == pid && log[|log| - 1].onWire then 1 else 0
  }

  /** A read that reached the wire is recorded under its parameter; one the gate refused was not sent. */
  ghost predicate InOrder(log: seq<CoreRead>)
  {
    |log| <= |CORE_PIDS| && forall i :: 0 <= i < |log| ==> log[i].pid == CORE_PIDS[i] && (log[i].outcome.NotSent? ==> !log[i].onWire)
  }

  lemma SentOne(log: seq<CoreRead>, r: CoreRead, pid: Pid)
    ensures Sent(log + [r], pid) == Sent(log, pid) + if r.pid == pid && r.onWire then 1 else 0
  {
    assert (log + [r])[..|log|] == log;
  }

  /** One read of the pass: whether it was sent, what came back, the asks it made for the parameter list,
      and what the cache has heard since. A refusal of a gated parameter as unknown is remembered. */
  method ReadOne(st: UidState, w: World, pid: Pid, n: nat, live: bool) returns (read: CoreRead, n': nat, asks: nat)
    requires st.supportedFlight.None? && Truthful(w)
    modifies st
    ensures st.supportedFlight.None? && read.pid == pid && (read.outcome.NotSent? <==> !read.onWire) && (pid !in {0x0070, 0x0011} ==> read.onWire)
    ensures pid in {0x0070, 0x0011} && st.supportedKnown ==> (read.onWire <==> pid !in old(st.unsupportedPIDs) && pid in st.supportedSet)
    ensures pid in {0x0070, 0x0011} && !st.supportedKnown ==>
              (read.onWire <==> pid !in old(st.unsupportedPIDs) && (st.supportedAttempted || st.supportedSilentAttempts == 0))
    ensures n' == n + (if Gated(pid) then asks else 0) + (if read.onWire then 1 else 0) && (read.onWire ==> read.outcome == w.answer(n' - 1))
    ensures st.unsupportedPIDs ==
              old(st.unsupportedPIDs) + if Gated(pid) && read.onWire && read.outcome.Nacked? && w.unknownPid(n' - 1) then {pid} else {}
    ensures asks <= 1 && (pid == SUPPORTED_PARAMETERS ==> asks == 1) && (asks == 1 ==> pid == SUPPORTED_PARAMETERS || Gated(pid))
    ensures Gated(pid) && asks == 1 ==> !old(st.supportedAttempted) && old(st.supportedSilentAttempts) < MAX_SILENT_ATTEMPTS
    ensures old(st.supportedAttempted) ==> st.supportedAttempted
    ensures asks == 1 && live ==> st.supportedAttempted || st.supportedSilentAttempts > old(st.supportedSilentAttempts)
    ensures st.supportedSilentAttempts >= old(st.supportedSilentAttempts)
    ensures st.supportedKnown ==> old(st.supportedKnown) || st.supportedAttempted
    ensures pid == SUPPORTED_PARAMETERS && live && IsAnswer(read.outcome) ==> st.supportedAttempted || st.supportedKnown
    ensures old(st.supportedKnown) ==> st.supportedKnown
    requires st.supportedKnown ==> st.supportedAttempted
  {
    n', asks := n, 0;
    var outcome, sent := NotSent, true;
    if Gated(pid) {
      var verdict;
      verdict, n' := EnsureAdvertised(st, pid, w, n, live);
      asks := n' - n;
      sent := verdict.Ok?;
    }
    if sent {
      outcome := w.answer(n');
      if outcome.Nacked? && Gated(pid) && w.unknownPid(n') {
        st.RememberUnsupported(pid);
      }
      n' := n' + 1;
    }
    if pid == SUPPORTED_PARAMETERS {
      asks := 1;
      st.RecordOutcome(outcome, live);
    }
    read := CoreRead(pid, outcome, sent);
  }

  /** Asks made so far, against what the cache has heard. */
  ghost predicate Counted(w: World, log: seq<CoreRead>, asks: nat, attempted: bool, silent: nat)
  {
    InOrder(log) && asks <= 2 && (|log| <= 1 ==> asks == 0) && (|log| > 1 ==> asks >= 1) &&
    Sent(log, SUPPORTED_PARAMETERS) == (if |log| > 1 then 1 else 0) &&
    (|log| > 1 && Live(w, 2 * |log|) ==> attempted || silent >= asks) &&
    (|log| > 1 && IsAnswer(log[1].outcome) && w.ends.None? ==> asks == 1 && attempted)
  }

  lemma CountOne(w: World, log: seq<CoreRead>, asks: nat, attempted: bool, silent: nat, read: CoreRead, asked: nat, attempted': bool, silent': nat)
    requires Counted(w, log, asks, attempted, silent) && |log| < |CORE_PIDS| && read.pid == CORE_PIDS[|log|] && Live(w, 2 * |log|)
    requires (read.outcome.NotSent? <==> !read.onWire) && (read.pid !in {0x0070, 0x0011} ==> read.onWire)
    requires asked <= 1 && (read.pid == SUPPORTED_PARAMETERS ==> asked == 1) && (asked == 1 ==> read.pid == SUPPORTED_PARAMETERS || Gated(read.pid))
    requires Gated(read.pid) && asked == 1 ==> !attempted && silent < MAX_SILENT_ATTEMPTS
    requires (attempted ==> attempted') && silent' >= silent
    requires asked == 1 && Live(w, 2 * |log| + 1) ==> attempted' || silent' > silent
    requires read.pid == SUPPORTED_PARAMETERS && Live(w, 2 * |log| + 1) && IsAnswer(read.outcome) ==> attempted'
    ensures Counted(w, log + [read], asks + asked, attempted', silent')
  {
    SentOne(log, read, SUPPORTED_PARAMETERS);
    hide Sent, IsAnswer;
    assert |log| == 1 <==> CORE_PIDS[|log|] == SUPPORTED_PARAMETERS;
    assert |log| <= 1 ==> !Gated(CORE_PIDS[|log|]);
    assert |log| > 1 ==> (log + [read])[1] == log[1];
  }

  /** The flags say what is in the log. */
  ghost predicate Flagged(out: CoreResult, log: seq<CoreRead>)
  {
    (out.haveDeviceInfo <==> |log| > 0 && log[0].outcome.Acked?) &&
    (out.answered <==> exists i :: 0 <= i < |log| && log[i].outcome.Acked?)
  }

  lemma FlagOne(out: CoreResult, log: seq<CoreRead>, read: CoreRead)
    requires Flagged(out, log) && |log| < |CORE_PIDS| && read.pid == CORE_PIDS[|log|]
    ensures !read.outcome.Acked? ==> Flagged(out, log + [read])
    ensures read.outcome.Acked? ==> Flagged(out.(answered := true, haveDeviceInfo := out.haveDeviceInfo || read.pid == DEVICE_INFO), log + [read])
  {
    var all := log + [read];
    assert all[|log|] == read && |log| == 0 <==> CORE_PIDS[|log|] == DEVICE_INFO;
    if i :| 0 <= i < |log| && log[i].outcome.Acked? {
      assert all[i] == log[i];
    }
  }

  /** One pass. It asks in order and asks a device that does not answer DEVICE_INFO nothing more; it
      never costs more than two requests for the parameter list, its own and one made by the gate, and
      the gate makes none where the device has answered. */
  method ReadCoreIdentity(st: UidState, w: World) returns (out: CoreResult, asks: nat)
    requires st.supportedFlight.None? && Truthful(w) && (st.supportedKnown ==> st.supportedAttempted)
    modifies st
    ensures |out.log| <= 6 && forall i :: 0 <= i < |out.log| ==> out.log[i].pid == [0x0060, 0x0050, 0x0070, 0x0011, 0x0080, 0x0081][i]
    ensures InOrder(out.log) && st.supportedFlight.None? && Flagged(out, out.log)
    ensures asks <= 2 && asks >= Sent(out.log, SUPPORTED_PARAMETERS)
    ensures |out.log| > 1 && IsAnswer(out.log[1].outcome) && w.ends.None? ==> asks == 1
    ensures |out.log| >= 1 && (out.silent <==> out.log[0].outcome.Silence? || out.log[0].outcome.NotSent?)
    ensures out.silent ==> |out.log| == 1 && asks == 0
    ensures !out.silent && w.ends.None? ==> |out.log| == |CORE_PIDS|
  {
    DeviceInfoFirst();
    InOrderAre();
    hide *;
    Began(w, st.supportedAttempted, st.supportedSilentAttempts);
    var log: seq<CoreRead>, n := [], 0;
    out, asks := CoreResult([], false, false, false), 0;
    for i := 0 to |CORE_PIDS|
      invariant |log| == i && st.supportedFlight.None? && (st.supportedKnown ==> st.supportedAttempted)
      invariant Counted(w, log, asks, st.supportedAttempted, st.supportedSilentAttempts) && Flagged(out, log) && !out.silent
      invariant i > 0 ==> !log[0].outcome.Silence? && !log[0].outcome.NotSent?
    {
      var pid := CORE_PIDS[i];
      if !Live(w, 2 * i) {
        var cut := CoreRead(pid, NotSent, false);
        CutShort(w, out, log, asks, st.supportedAttempted, st.supportedSilentAttempts, cut);
        out := out.(log := log + [cut], silent := pid == DEVICE_INFO);
        return;
      }
      var read, asked;
      ghost var attempted, silent := st.supportedAttempted, st.supportedSilentAttempts;
      read, n, asked := ReadOne(st, w, pid, n, Live(w, 2 * i + 1));
      CountOne(w, log, asks, attempted, silent, read, asked, st.supportedAttempted, st.supportedSilentAttempts);
      FlagOne(out, log, read);
      asks, log := asks + asked, log + [read];
      if read.outcome.Acked? {
        out := out.(answered := true, haveDeviceInfo := out.haveDeviceInfo || pid == DEVICE_INFO);
      } else if pid == DEVICE_INFO && read.outcome.Silence? {
        FlaggedAnyLog(out, log);
        out := out.(log := log, silent := true);
        SilentAtOnce(w, log, asks, st.supportedAttempted, st.supportedSilentAttempts);
        return;
      }
    }
    Whole(w, log, asks, st.supportedAttempted, st.supportedSilentAttempts);
    FlaggedAnyLog(out, log);
    out := out.(log := log);
  }

  lemma DeviceInfoFirst()
    ensures |CORE_PIDS| == 6 && DEVICE_INFO !in {0x0070, 0x0011} && forall i :: 0 <= i < |CORE_PIDS| ==> (CORE_PIDS[i] == DEVICE_INFO <==> i == 0)
  {}

  lemma InOrderAre()
    ensures forall log: seq<CoreRead> :: InOrder(log) ==>
              |log| <= 6 && forall i :: 0 <= i < |log| ==> log[i].pid == [0x0060, 0x0050, 0x0070, 0x0011, 0x0080, 0x0081][i]
  {
    forall log: seq<CoreRead>, i | InOrder(log) && 0 <= i < |log| ensures log[i].pid == [0x0060, 0x0050, 0x0070, 0x0011, 0x0080, 0x0081][i] {
      assert log[i].pid == CORE_PIDS[i];
    }
  }

  lemma Began(w: World, attempted: bool, silent: nat)
    ensures Counted(w, [], 0, attempted, silent) && Flagged(CoreResult([], false, false, false), [])
  {}

  lemma FlaggedAnyLog(out: CoreResult, log: seq<CoreRead>)
    requires Flagged(out, log)
    ensures forall l, b :: Flagged(out.(log := l, silent := b), log)
  {}

  lemma Whole(w: World, log: seq<CoreRead>, asks: nat, attempted: bool, silent: nat)
    requires Counted(w, log, asks, attempted, silent) && |log| == |CORE_PIDS|
    ensures InOrder(log) && asks <= 2 && asks >= Sent(log, SUPPORTED_PARAMETERS)
    ensures |log| > 1 && IsAnswer(log[1].outcome) && w.ends.None? ==> asks == 1
  {
    hide InOrder, Sent, Live, IsAnswer;
  }

  lemma CutShort(w: World, out: CoreResult, log: seq<CoreRead>, asks: nat, attempted: bool, silent: nat, cut: CoreRead)
    requires Counted(w, log, asks, attempted, silent) && Flagged(out, log) && |log| < |CORE_PIDS| && !Live(w, 2 * |log|)
    requires cut == CoreRead(CORE_PIDS[|log|], NotSent, false)
    ensures InOrder(log + [cut]) && Flagged(out.(log := log + [cut], silent := cut.pid == DEVICE_INFO), log + [cut])
    ensures asks <= 2 && asks >= Sent(log + [cut], SUPPORTED_PARAMETERS) && w.ends.Some?
    ensures cut.pid == DEVICE_INFO ==> |log| == 0 && asks == 0
    ensures !IsAnswer(cut.outcome)
  {
    LiveMeans(w, 2 * |log|);
    hide *;
    SentOne(log, cut, SUPPORTED_PARAMETERS);
    InOrderOne(log, cut);
    CutFlags(out, log, cut);
  }

  lemma LiveMeans(w: World, at: nat)
    ensures !Live(w, at) ==> w.ends.Some?
  {}

  lemma InOrderOne(log: seq<CoreRead>, read: CoreRead)
    requires InOrder(log) && |log| < |CORE_PIDS| && read.pid == CORE_PIDS[|log|] && (read.outcome.NotSent? ==> !read.onWire)
    ensures InOrder(log + [read])
  {}

  lemma CutFlags(out: CoreResult, log: seq<CoreRead>, cut: CoreRead)
    requires Flagged(out, log) && |log| < |CORE_PIDS| && cut == CoreRead(CORE_PIDS[|log|], NotSent, false)
    ensures Flagged(out.(log := log + [cut], silent := cut.pid == DEVICE_INFO), log + [cut]) && !IsAnswer(cut.outcome)
  {
    FlagOne(out, log, cut);
  }

  lemma SilentAtOnce(w: World, log: seq<CoreRead>, asks: nat, attempted: bool, silent: nat)
    requires Counted(w, log, asks, attempted, silent) && |log| > 0 && log[|log| - 1].pid == DEVICE_INFO && log[|log| - 1].outcome.Silence?
    ensures |log| == 1 && asks == 0 && !IsAnswer(log[0].outcome) && InOrder(log)
    ensures asks >= Sent(log, SUPPORTED_PARAMETERS)
  {
    assert CORE_PIDS[|log| - 1] == DEVICE_INFO <==> |log| == 1;
  }

}
