/** The background identity reader: one worker, a ledger of devices, a queue of the pending ones, and
    events that may land while a pass is on the wire. */
module AutoRead {
  import opened Prelude

  const DEFAULT_MAX_ATTEMPTS := 2

  datatype Key = Key(ip: string, bind: byte, port: uint16, uid: string)

  /** A device that is in no entry is unknown. */
  datatype State = Pending | Reading | Read | GaveUp

  datatype Entry = Entry(state: State, attempts: nat)

  /** working is the key whose pass is on the wire; max is below 0 where the reader never stops. */
  datatype Ledger = Ledger(entries: map<Key, Entry>, queue: seq<Key>, passes: nat, working: Option<Key>, max: int)

  // ---------------------------------------------------------------- the invariant

  ghost predicate NoRepeats(queue: seq<Key>)
  {
    forall i, j :: 0 <= i < j < |queue| ==> queue[i] != queue[j]
  }

  /** Attempts are within the budget, and an entry still to be read has some of it left. */
  ghost predicate InBudget(e: Entry, max: int)
  {
    (max > 0 ==> e.attempts <= max) &&
    (max > 0 && (e.state.Pending? || e.state.Reading?) ==> e.attempts < max) &&
    (e.state.GaveUp? ==> 0 < max == e.attempts) &&
    (e.state.Read? ==> e.attempts >= 1)
  }

  /** The queue lists the pending entries, each once, and only the device on the wire is being read. */
  ghost predicate Valid(l: Ledger)
  {
    l.max != 0 && NoRepeats(l.queue) &&
    (forall k :: k in l.queue <==> k in l.entries && l.entries[k].state.Pending?) &&
    (forall k :: k in l.entries && l.entries[k].state.Reading? ==> l.working == Some(k)) &&
    forall k :: k in l.entries ==> InBudget(l.entries[k], l.max)
  }

  // ---------------------------------------------------------------- the steps

  function Noted(l: Ledger, k: Key): Ledger
  {
    if k in l.entries then l else l.(entries := l.entries[k := Entry(Pending, 0)], queue := l.queue + [k])
  }

  /** The keys of the queue that drop does not match, in their order. */
  function Kept(queue: seq<Key>, drop: Key -> bool): seq<Key>
  {
    if queue == [] then []
    else Kept(queue[..|queue| - 1], drop) + if drop(queue[|queue| - 1]) then [] else [queue[|queue| - 1]]
  }

  function Dropped(l: Ledger, drop: Key -> bool): Ledger
  {
    l.(entries := map k | k in l.entries && !drop(k) :: l.entries[k], queue := Kept(l.queue, drop))
  }

  function Emptied(l: Ledger): Ledger
  {
    l.(entries := map[], queue := [])
  }

  /** The first slot of the queue whose entry is still pending. */
  function FirstPending(l: Ledger): (i: nat)
    ensures i <= |l.queue|
  {
    FirstPendingFrom(l, 0)
  }

  function FirstPendingFrom(l: Ledger, i: nat): (j: nat)
    requires i <= |l.queue|
    ensures i <= j <= |l.queue|
    ensures j < |l.queue| ==> l.queue[j] in l.entries && l.entries[l.queue[j]].state.Pending?
    ensures forall n :: i <= n < j ==> !(l.queue[n] in l.entries && l.entries[l.queue[n]].state.Pending?)
    decreases |l.queue| - i
  {
    if i == |l.queue| || (l.queue[i] in l.entries && l.entries[l.queue[i]].state.Pending?) then i
    else FirstPendingFrom(l, i + 1)
  }

  function Taken(l: Ledger): Ledger
  {
    var i := FirstPending(l);
    if i < |l.queue|
    then l.(entries := l.entries[l.queue[i] := l.entries[l.queue[i]].(state := Reading)], queue := l.queue[i + 1..], working := Some(l.queue[i]))
    else l.(queue := [])
  }

  /** The entry after its pass: have, DEVICE_INFO was answered; stopping, the reader is shutting down. */
  function Judged(e: Entry, have: bool, stopping: bool, max: int): Entry
  {
    if have then Entry(Read, e.attempts + 1)
    else if stopping then Entry(Pending, e.attempts)
    else if 0 < max <= e.attempts + 1 then Entry(GaveUp, e.attempts + 1)
    else Entry(Pending, e.attempts + 1)
  }

  function Filed(l: Ledger, k: Key, have: bool, stopping: bool): Ledger
  {
    var done := l.(passes := l.passes + 1, working := None);
    if k !in l.entries || !l.entries[k].state.Reading? then done
    else
      var e := Judged(l.entries[k], have, stopping, l.max);
      done.(entries := l.entries[k := e], queue := l.queue + if e.state.Pending? then [k] else [])
  }

  lemma {:induction false} KeptAre(queue: seq<Key>, drop: Key -> bool)
    ensures forall k :: k in Kept(queue, drop) <==> k in queue && !drop(k)
    ensures NoRepeats(queue) ==> NoRepeats(Kept(queue, drop))
  {
    if queue != [] {
      var init, last := queue[..|queue| - 1], queue[|queue| - 1];
      KeptAre(init, drop);
      assert queue == init + [last];
      assert NoRepeats(queue) ==> NoRepeats(init) && last !in init;
    }
  }

  lemma NotedValid(l: Ledger, k: Key)
    requires Valid(l)
    ensures Valid(Noted(l, k))
  {}

  lemma DroppedValid(l: Ledger, drop: Key -> bool)
    requires Valid(l)
    ensures Valid(Dropped(l, drop))
  {
    KeptAre(l.queue, drop);
    hide Kept, InBudget;
  }

  lemma TakenSome(l: Ledger)
    requires Valid(l)
    ensures FirstPending(l) == |l.queue| <==> l.queue == []
  {}

  lemma TakenValid(l: Ledger)
    requires Valid(l) && l.working.None?
    ensures Valid(Taken(l))
    ensures Taken(l) == if l.queue == [] then l
                        else l.(entries := l.entries[l.queue[0] := l.entries[l.queue[0]].(state := Reading)], queue := l.queue[1..], working := Some(l.queue[0]))
  {
    if l.queue != [] {
      assert l.queue[0] in l.queue;
      var now := Taken(l);
      forall k ensures k in now.queue <==> k in now.entries && now.entries[k].state.Pending? {
        if k in now.queue {
          var i :| 0 <= i < |now.queue| && now.queue[i] == k;
          assert l.queue[i + 1] == k && k in l.queue;
        }
        if k in now.entries && now.entries[k].state.Pending? {
          assert k in l.queue && k != l.queue[0];
        }
      }
    }
  }

  lemma FiledValid(l: Ledger, k: Key, have: bool, stopping: bool)
    requires Valid(l) && l.working == Some(k)
    ensures Valid(Filed(l, k, have, stopping))
  {}

  // ---------------------------------------------------------------- the reader

  function OnUid(uid: string): Key -> bool { (k: Key) => k.uid == uid }

  /** Whatever the binding: a port is its node's address and its Port-Address. */
  function OnPort(ip: string, port: uint16): Key -> bool { (k: Key) => k.ip == ip && k.port == port }

  class Reader {
    const maxAttempts: int
    var entries: map<Key, Entry>
    var queue: seq<Key>
    var passes: nat
    ghost var working: Option<Key>

    ghost function Now(): Ledger
      reads this
    {
      Ledger(entries, queue, passes, working, maxAttempts)
    }

    /** 0 asks for the default budget. */
    constructor (maxAttempts: int)
      ensures Valid(Now()) && Now() == Ledger(map[], [], 0, None, if maxAttempts == 0 then DEFAULT_MAX_ATTEMPTS else maxAttempts)
    {
      this.maxAttempts := if maxAttempts == 0 then DEFAULT_MAX_ATTEMPTS else maxAttempts;
      entries, queue, passes, working := map[], [], 0, None;
    }

    /** A device was named: one not in the ledger is queued, any other is left as it is. */
    method Note(k: Key)
      requires Valid(Now())
      modifies this`entries, this`queue
      ensures Now() == Noted(old(Now()), k) && Valid(Now())
    {
      NotedValid(Now(), k);
      if k in entries {
        return;
      }
      entries := entries[k := Entry(Pending, 0)];
      queue := queue + [k];
    }

    /** Takes the next pending device and marks it as being read. */
    method Take() returns (k: Option<Key>)
      requires working.None?
      modifies this`entries, this`queue, this`working
      ensures Now() == Taken(old(Now())) && k == working
      ensures Valid(old(Now())) ==> Valid(Now()) && (k.None? <==> old(queue) == [])
    {
      hide Valid;
      if Valid(Now()) {
        TakenValid(Now());
        TakenSome(Now());
      }
      ghost var before, i := Now(), 0;
      k := None;
      while |queue| > 0
        invariant 0 <= i <= |before.queue| && queue == before.queue[i..] && Now() == before.(queue := queue)
        invariant FirstPendingFrom(before, 0) == FirstPendingFrom(before, i)
        decreases |queue|
      {
        var next := queue[0];
        queue := queue[1..];
        if next !in entries || !entries[next].state.Pending? {
          i := i + 1;
          continue;
        }
        entries := entries[next := entries[next].(state := Reading)];
        working := Some(next);
        return Some(next);
      }
    }

    /** Files the outcome of the pass on k, whatever happened to the ledger while it was on the wire. */
    method FilePass(k: Key, have: bool, stopping: bool)
      requires Valid(Now()) && working == Some(k)
      modifies this`entries, this`queue, this`passes, this`working
      ensures Now() == Filed(old(Now()), k, have, stopping) && Valid(Now())
    {
      FiledValid(Now(), k, have, stopping);
      passes := passes + 1;
      working := None;
      if k !in entries {
        return;
      }
      var cur := entries[k];
      if !cur.state.Reading? {
        return;
      }
      cur := cur.(attempts := cur.attempts + 1);
      if have {
        cur := cur.(state := Read);
      } else if stopping {
        cur := cur.(attempts := cur.attempts - 1, state := Pending);
        queue := queue + [k];
      } else if maxAttempts > 0 && cur.attempts >= maxAttempts {
        cur := cur.(state := GaveUp);
      } else {
        cur := cur.(state := Pending);
        queue := queue + [k];
      }
      entries := entries[k := cur];
    }

    method DropQueued(drop: Key -> bool)
      modifies this`queue
      ensures queue == Kept(old(queue), drop)
    {
      var kept: seq<Key> := [];
      for i := 0 to |queue|
        invariant kept == Kept(queue[..i], drop)
      {
        assert queue[..i + 1][..i] == queue[..i];
        if !drop(queue[i]) {
          kept := kept + [queue[i]];
        }
      }
      assert queue[..|queue|] == queue;
      queue := kept;
    }

    static method DeleteEntries(all: map<Key, Entry>, drop: Key -> bool) returns (entries: map<Key, Entry>, n: nat)
      ensures entries == map k | k in all && !drop(k) :: all[k]
      ensures n == |all.Keys - entries.Keys|
    {
      n, entries := 0, all;
      var rest := all.Keys;
      while rest != {}
        invariant rest <= all.Keys && n == |all.Keys - entries.Keys|
        invariant forall k :: k in entries <==> k in all && (k in rest || !drop(k))
        invariant forall k :: k in entries ==> entries[k] == all[k]
      {
        var k :| k in rest;
        rest := rest - {k};
        if drop(k) {
          ghost var gone := all.Keys - entries.Keys;
          entries := entries - {k};
          n := n + 1;
          assert all.Keys - entries.Keys == gone + {k};
        }
      }
    }

    /** Forgets every device drop matches, and its queue slot; a pass on the wire is left to finish. */
    method DropEntries(drop: Key -> bool) returns (n: nat)
      requires Valid(Now())
      modifies this`entries, this`queue
      ensures Now() == Dropped(old(Now()), drop) && Valid(Now())
      ensures n == |old(entries).Keys - entries.Keys|
    {
      DroppedValid(Now(), drop);
      hide Valid, Kept;
      entries, n := DeleteEntries(entries, drop);
      DropQueued(drop);
    }

    method Forget(uid: string) returns (n: nat)
      requires Valid(Now())
      modifies this`entries, this`queue
      ensures Now() == Dropped(old(Now()), OnUid(uid)) && Valid(Now()) && n == |old(entries).Keys - entries.Keys|
    {
      n := DropEntries(OnUid(uid));
    }

    method ForgetPort(ip: string, port: uint16) returns (n: nat)
      requires Valid(Now())
      modifies this`entries, this`queue
      ensures Now() == Dropped(old(Now()), OnPort(ip, port)) && Valid(Now()) && n == |old(entries).Keys - entries.Keys|
    {
      n := DropEntries(OnPort(ip, port));
    }

    method Reset()
      requires Valid(Now())
      modifies this`entries, this`queue
      ensures Now() == Emptied(old(Now())) && Valid(Now())
      ensures entries == map[] && queue == [] && working == old(working) && passes == old(passes)
    {
      entries, queue := map[], [];
    }
  }

  // ---------------------------------------------------------------- whole runs

  datatype Event =
    | NoteEvent(key: Key)
    | TakeEvent
    | FileEvent(have: bool, stopping: bool)
    | ForgetEvent(uid: string)
    | ForgetPortEvent(ip: string, port: uint16)
    | ResetEvent

  /** The one worker takes a device when it has none, and files its pass when it has. */
  predicate Possible(l: Ledger, e: Event)
  {
    (e.TakeEvent? ==> l.working.None?) && (e.FileEvent? ==> l.working.Some?)
  }

  function After(l: Ledger, e: Event): Ledger
    requires Possible(l, e)
  {
    match e
    case NoteEvent(k) => Noted(l, k)
    case TakeEvent => Taken(l)
    case FileEvent(have, stopping) => Filed(l, l.working.value, have, stopping)
    case ForgetEvent(uid) => Dropped(l, OnUid(uid))
    case ForgetPortEvent(ip, port) => Dropped(l, OnPort(ip, port))
    case ResetEvent => Emptied(l)
  }

  lemma AfterValid(l: Ledger, e: Event)
    requires Valid(l) && Possible(l, e)
    ensures Valid(After(l, e)) && After(l, e).max == l.max
  {
    match e
    case NoteEvent(k) => NotedValid(l, k);
    case TakeEvent => TakenValid(l);
    case FileEvent(have, stopping) => FiledValid(l, l.working.value, have, stopping);
    case ForgetEvent(uid) => DroppedValid(l, OnUid(uid));
    case ForgetPortEvent(ip, port) => DroppedValid(l, OnPort(ip, port));
    case ResetEvent =>
  }

  ghost predicate IsRun(ls: seq<Ledger>, es: seq<Event>)
  {
    |ls| == |es| + 1 && Valid(ls[0]) && forall n :: 0 <= n < |es| ==> Stepped(ls, es, n)
  }

  ghost predicate Stepped(ls: seq<Ledger>, es: seq<Event>, n: nat)
    requires |ls| == |es| + 1 && n < |es|
  {
    Possible(ls[n], es[n]) && ls[n + 1] == After(ls[n], es[n])
  }

  /** Whatever lands while a pass is on the wire, the queue stays the list of pending devices. */
  lemma {:induction false} RunValid(ls: seq<Ledger>, es: seq<Event>, n: nat)
    requires IsRun(ls, es) && n <= |es|
    ensures Valid(ls[n]) && ls[n].max == ls[0].max
  {
    if n > 0 {
      RunValid(ls, es, n - 1);
      hide Valid, After, Possible;
      assert Stepped(ls, es, n - 1);
      AfterValid(ls[n - 1], es[n - 1]);
    }
  }

  /** Event n put k on the wire. */
  predicate Takes(ls: seq<Ledger>, es: seq<Event>, n: nat, k: Key)
    requires |ls| == |es| + 1 && n < |es|
  {
    es[n].TakeEvent? && ls[n + 1].working == Some(k)
  }

  /** Event n ended k's pass unanswered because the reader was stopping. */
  predicate Stopped(ls: seq<Ledger>, es: seq<Event>, n: nat, k: Key)
    requires |ls| == |es| + 1 && n < |es|
  {
    es[n].FileEvent? && es[n].stopping && !es[n].have && ls[n].working == Some(k) && k in ls[n].entries && ls[n].entries[k].state.Reading?
  }

  function CountTakes(ls: seq<Ledger>, es: seq<Event>, a: nat, b: nat, k: Key): nat
    requires |ls| == |es| + 1 && a <= b <= |es|
  {
    if a == b then 0 else CountTakes(ls, es, a, b - 1, k) + if Takes(ls, es, b - 1, k) then 1 else 0
  }

  function CountStops(ls: seq<Ledger>, es: seq<Event>, a: nat, b: nat, k: Key): nat
    requires |ls| == |es| + 1 && a <= b <= |es|
  {
    if a == b then 0 else CountStops(ls, es, a, b - 1, k) + if Stopped(ls, es, b - 1, k) then 1 else 0
  }

  /** An entry costs what it records: the passes begun on it since it entered the ledger are its
      attempts, the one on the wire, and those a shutdown cut off. */
  lemma {:induction false} EntryCost(ls: seq<Ledger>, es: seq<Event>, a: nat, b: nat, k: Key)
    requires IsRun(ls, es) && a < b <= |es| && k !in ls[a].entries && es[a] == NoteEvent(k)
    requires forall n :: a < n <= b ==> k in ls[n].entries
    ensures CountTakes(ls, es, a + 1, b, k) ==
              ls[b].entries[k].attempts + (if ls[b].entries[k].state.Reading? then 1 else 0) + CountStops(ls, es, a + 1, b, k)
    decreases b
  {
    RunValid(ls, es, b - 1);
    assert Stepped(ls, es, b - 1);
    if b > a + 1 {
      EntryCost(ls, es, a, b - 1, k);
      hide Valid, After, IsRun;
    }
  }

  /** One entry never costs more passes than the budget, beyond those a shutdown cut off. */
  lemma EntryWithinBudget(ls: seq<Ledger>, es: seq<Event>, a: nat, b: nat, k: Key)
    requires IsRun(ls, es) && a < b <= |es| && k !in ls[a].entries && es[a] == NoteEvent(k) && ls[0].max > 0
    requires forall n :: a < n <= b ==> k in ls[n].entries
    ensures CountTakes(ls, es, a + 1, b, k) <= ls[0].max + CountStops(ls, es, a + 1, b, k)
  {
    EntryCost(ls, es, a, b, k);
    RunValid(ls, es, b);
    hide IsRun, NoRepeats;
  }

  // ---------------------------------------------------------------- draining

  /** The attempts the queued devices have left. */
  function Remaining(entries: map<Key, Entry>, queue: seq<Key>, max: int): int
  {
    if queue == [] then 0
    else Remaining(entries, queue[..|queue| - 1], max) +
         if queue[|queue| - 1] in entries then max - entries[queue[|queue| - 1]].attempts else 0
  }

  lemma {:induction false} RemainingSame(entries: map<Key, Entry>, entries': map<Key, Entry>, queue: seq<Key>, max: int)
    requires forall k :: k in queue ==> k in entries && k in entries' && entries[k].attempts == entries'[k].attempts
    ensures Remaining(entries, queue, max) == Remaining(entries', queue, max)
  {
    if queue != [] {
      var init := queue[..|queue| - 1];
      assert forall k :: k in init ==> k in queue;
      assert queue[|queue| - 1] in queue;
      RemainingSame(entries, entries', init, max);
    }
  }

  lemma {:induction false} RemainingHead(entries: map<Key, Entry>, queue: seq<Key>, max: int)
    requires queue != [] && queue[0] in entries
    ensures Remaining(entries, queue, max) == max - entries[queue[0]].attempts + Remaining(entries, queue[1..], max)
  {
    if |queue| > 1 {
      var init := queue[..|queue| - 1];
      assert init[1..] == queue[1..][..|queue| - 2];
      RemainingHead(entries, init, max);
    }
  }

  lemma {:induction false} RemainingPositive(entries: map<Key, Entry>, queue: seq<Key>, max: int)
    requires forall k :: k in queue ==> k in entries && entries[k].attempts < max
    ensures Remaining(entries, queue, max) >= |queue|
  {
    if queue != [] {
      var init := queue[..|queue| - 1];
      assert forall k :: k in init ==> k in queue;
      assert queue[|queue| - 1] in queue;
      RemainingPositive(entries, init, max);
    }
  }

  /** What one undisturbed pass makes of the ledger. */
  lemma OnePass(l: Ledger, have: bool)
    requires Valid(l) && l.working.None? && l.queue != []
    ensures l.queue[0] in l.queue && l.queue[0] in l.entries
    ensures var k := l.queue[0];
            var e := Judged(l.entries[k], have, false, l.max);
            var next := Filed(Taken(l), k, have, false);
            Valid(next) &&
            next == l.(entries := l.entries[k := e], queue := l.queue[1..] + (if e.state.Pending? then [k] else []), passes := l.passes + 1)
  {
    assert l.queue[0] in l.queue;
    TakenValid(l);
    FiledValid(Taken(l), l.queue[0], have, false);
    hide Valid, Taken, FirstPending;
  }

  /** One pass of an undisturbed worker uses up at least one of the attempts left. */
  lemma PassUses(l: Ledger, have: bool)
    requires Valid(l) && l.working.None? && l.queue != [] && l.max > 0
    ensures l.queue[0] in l.queue && l.queue[0] in l.entries
    ensures var next := Filed(Taken(l), l.queue[0], have, false);
            Valid(next) && next.working.None? && next.passes == l.passes + 1 && next.max == l.max &&
            Remaining(next.entries, next.queue, next.max) <= Remaining(l.entries, l.queue, l.max) - 1 &&
            next.entries.Keys == l.entries.Keys
  {
    OnePass(l, have);
    var k := l.queue[0];
    var e := Judged(l.entries[k], have, false, l.max);
    assert e.attempts == l.entries[k].attempts + 1;
    assert Filed(Taken(l), k, have, false).working.None?;
    hide *;
    RemainingAfter(l.entries, l.queue, e, l.max);
  }

  lemma RemainingAfter(entries: map<Key, Entry>, queue: seq<Key>, e: Entry, max: int)
    requires queue != [] && queue[0] in entries && e.attempts == entries[queue[0]].attempts + 1 && entries[queue[0]].attempts < max
    requires forall x :: x in queue[1..] ==> x in entries && x != queue[0]
    ensures Remaining(entries[queue[0] := e], queue[1..] + (if e.state.Pending? then [queue[0]] else []), max) <= Remaining(entries, queue, max) - 1
  {
    hide Remaining;
    var k, rest := queue[0], queue[1..];
    RemainingHead(entries, queue, max);
    RemainingSame(entries, entries[k := e], rest, max);
    RemainingLast(entries[k := e], rest, k, max);
    assert rest + [] == rest;
  }

  lemma RemainingLast(entries: map<Key, Entry>, queue: seq<Key>, k: Key, max: int)
    requires k in entries
    ensures Remaining(entries, queue + [k], max) == Remaining(entries, queue, max) + max - entries[k].attempts
  {
    assert (queue + [k])[..|queue|] == queue;
  }

  /** The worker left to itself: it drains the queue in at most as many passes as the devices had
      attempts left, and leaves every device read or given up on. */
  method Drain(r: Reader, answers: nat -> bool)
    requires Valid(r.Now()) && r.working.None? && r.maxAttempts > 0
    modifies r
    ensures Valid(r.Now()) && r.queue == [] && r.entries.Keys == old(r.entries).Keys
    ensures r.passes <= old(r.passes) + old(Remaining(r.entries, r.queue, r.maxAttempts))
    ensures forall k :: k in r.entries ==> r.entries[k].state.Read? || (r.entries[k].state.GaveUp? && r.entries[k].attempts == r.maxAttempts)
  {
    ghost var keys, start, budget := r.entries.Keys, r.passes, Remaining(r.entries, r.queue, r.maxAttempts);
    while |r.queue| > 0
      invariant Valid(r.Now()) && r.working.None? && r.entries.Keys == keys
      invariant r.passes + Remaining(r.entries, r.queue, r.maxAttempts) <= start + budget
      decreases Remaining(r.entries, r.queue, r.maxAttempts)
    {
      PassUses(r.Now(), answers(r.passes));
      QueueCounts(r.Now());
      hide Valid, Remaining, Taken, Filed;
      ghost var before := r.Now();
      var k := r.Take();
      r.FilePass(k.value, answers(r.passes), false);
    }
    QueueCounts(r.Now());
  }

  lemma QueueCounts(l: Ledger)
    requires Valid(l) && l.max > 0
    ensures Remaining(l.entries, l.queue, l.max) >= |l.queue|
  {
    RemainingPositive(l.entries, l.queue, l.max);
  }

  // ---------------------------------------------------------------- what each step decides

  /** A mention queues an unknown device behind the others with no attempts spent, and leaves a known one alone. */
  lemma NotedExactly(l: Ledger, k: Key)
    ensures k in l.entries ==> Noted(l, k) == l
    ensures k !in l.entries ==> Noted(l, k).queue == l.queue + [k] && k in Noted(l, k).entries &&
                                Noted(l, k).entries[k].state.Pending? && Noted(l, k).entries[k].attempts == 0
    ensures forall x :: x in l.entries ==> x in Noted(l, k).entries && Noted(l, k).entries[x] == l.entries[x]
  {}

  /** Filing a pass of the device on the wire, whose entry still says so. Answered, it is read; cut off by a
      shutdown, it goes back behind the others at no cost; out of attempts, it is given up on; else it goes
      back with one attempt spent. */
  lemma FiledExactly(l: Ledger, k: Key, have: bool, stopping: bool)
    requires Valid(l) && k in l.entries && l.entries[k].state.Reading?
    ensures var now, spent := Filed(l, k, have, stopping), l.entries[k].attempts;
            k in now.entries && now.passes == l.passes + 1 && now.working.None? &&
            (forall x :: x != k ==> (x in now.entries <==> x in l.entries) && (x in now.entries ==> now.entries[x] == l.entries[x])) &&
            (now.entries[k].state.Read? <==> have) &&
            (now.entries[k].state.GaveUp? <==> !have && !stopping && l.max > 0 && spent + 1 == l.max) &&
            (now.entries[k].state.Pending? <==> !have && (stopping || l.max < 0 || spent + 1 < l.max)) &&
            now.entries[k].attempts == (if !have && stopping then spent else spent + 1) &&
            now.queue == l.queue + if now.entries[k].state.Pending? then [k] else []
  {
    assert l.queue + [] == l.queue;
  }

  /** A pass whose entry was forgotten meanwhile, or queued anew, is counted and leaves the ledger as it is. */
  lemma FiledLate(l: Ledger, k: Key, have: bool, stopping: bool)
    requires k !in l.entries || !l.entries[k].state.Reading?
    ensures Filed(l, k, have, stopping).entries == l.entries && Filed(l, k, have, stopping).queue == l.queue
    ensures Filed(l, k, have, stopping).passes == l.passes + 1
  {}

  /** x stands before y in the queue. */
  ghost predicate Ahead(queue: seq<Key>, x: Key, y: Key)
  {
    exists i, j :: 0 <= i < j < |queue| && queue[i] == x && queue[j] == y
  }

  lemma {:induction false} KeptInOrder(queue: seq<Key>, drop: Key -> bool, x: Key, y: Key)
    ensures Ahead(Kept(queue, drop), x, y) <==> Ahead(queue, x, y) && !drop(x) && !drop(y)
  {
    if queue != [] {
      var init, last := queue[..|queue| - 1], queue[|queue| - 1];
      KeptInOrder(init, drop, x, y);
      KeptAre(init, drop);
      AheadStep(init, last, x, y);
      AheadStep(Kept(init, drop), last, x, y);
      assert queue == init + [last];
      assert Kept(init, drop) + [] == Kept(init, drop);
    }
  }

  lemma AheadStep(queue: seq<Key>, last: Key, x: Key, y: Key)
    ensures Ahead(queue + [last], x, y) <==> Ahead(queue, x, y) || (x in queue && y == last)
  {
    var all := queue + [last];
    if i, j :| 0 <= i < j < |queue| && queue[i] == x && queue[j] == y {
      assert all[i] == x && all[j] == y;
    }
    if x in queue && y == last {
      var i :| 0 <= i < |queue| && queue[i] == x;
      assert all[i] == x && all[|queue|] == y;
    }
  }

  /** Forgetting a device, or a port whatever the binding, takes exactly its entries and queue slots, and the
      others keep their entries and their order. */
  lemma ForgottenExactly(l: Ledger, uid: string, ip: string, port: uint16, k: Key, x: Key)
    ensures var now := Dropped(l, OnUid(uid));
            (k in now.entries <==> k in l.entries && k.uid != uid) && (k in now.entries ==> now.entries[k] == l.entries[k]) &&
            (k in now.queue <==> k in l.queue && k.uid != uid) && (Ahead(now.queue, k, x) <==> Ahead(l.queue, k, x) && k.uid != uid && x.uid != uid)
    ensures var now := Dropped(l, OnPort(ip, port));
            (k in now.entries <==> k in l.entries && !(k.ip == ip && k.port == port)) && (k in now.entries ==> now.entries[k] == l.entries[k]) &&
            (k in now.queue <==> k in l.queue && !(k.ip == ip && k.port == port))
  {
    hide Kept, Ahead;
    KeptAre(l.queue, OnUid(uid));
    KeptAre(l.queue, OnPort(ip, port));
    KeptInOrder(l.queue, OnUid(uid), k, x);
  }

  /** A device that was read is not put on the wire again while its entry stays. */
  lemma {:induction false} ReadForGood(ls: seq<Ledger>, es: seq<Event>, a: nat, b: nat, k: Key)
    requires IsRun(ls, es) && a <= b <= |es| && (forall n :: a <= n <= b ==> k in ls[n].entries) && ls[a].entries[k].state.Read?
    ensures ls[b].entries[k] == ls[a].entries[k] && k !in ls[b].queue
    ensures b > a ==> !Takes(ls, es, b - 1, k)
    decreases b
  {
    hide Valid;
    RunValid(ls, es, b);
    if b > a {
      ReadForGood(ls, es, a, b - 1, k);
      RunValid(ls, es, b - 1);
      assert Stepped(ls, es, b - 1);
      ReadStays(ls[b - 1], es[b - 1], k);
    }
    ReadUnqueued(ls[b], k);
  }

  lemma ReadStays(l: Ledger, e: Event, k: Key)
    requires Valid(l) && Possible(l, e) && k in l.entries && l.entries[k].state.Read? && k in After(l, e).entries
    ensures After(l, e).entries[k] == l.entries[k] && (e.TakeEvent? ==> After(l, e).working != Some(k))
  {}

  lemma ReadUnqueued(l: Ledger, k: Key)
    requires Valid(l) && k in l.entries && l.entries[k].state.Read?
    ensures k !in l.queue
  {}
}
