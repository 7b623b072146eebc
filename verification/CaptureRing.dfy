/** The capture ring: an array that always holds the last entries added, and the batches it hands to subscribers. */
module CaptureRing {
  import opened Prelude

  const DEFAULT_CAPACITY := 10000
  const HEX_THRESHOLD := 600
  /** Batches a subscriber's channel holds. */
  const CHANNEL_SIZE := 8

  /** seq is the entry's number, from 1; content is everything the ring does not look at. */
  datatype Entry = Entry(seqNo: nat, size: nat, decodeErr: string, hex: string, hexTrunc: bool, content: string)

  /** An entry as it is kept: numbered, and without the dump of a long packet that decoded. */
  function Kept(e: Entry, seqNo: nat): Entry
  {
    var n := e.(seqNo := seqNo);
    if e.size > HEX_THRESHOLD && e.decodeErr == "" then n.(hexTrunc := true, hex := "") else n
  }

  function LastOf<T>(s: seq<T>, n: nat): seq<T>
  {
    if |s| <= n then s else s[|s| - n..]
  }

  type Filter = Entry -> bool

  function Matching(es: seq<Entry>, f: Filter): seq<Entry>
  {
    if es == [] then []
    else Matching(es[..|es| - 1], f) + if f(es[|es| - 1]) then [es[|es| - 1]] else []
  }

  /** A subscriber: the batches that wait in its channel, the highest number it was offered, all that was
      ever put in its channel and all it has taken out. */
  datatype Subscriber = Subscriber(filter: Filter, queue: seq<seq<Entry>>, lastSeq: nat, sent: seq<Entry>, got: seq<Entry>)

  function NewSubscriber(f: Filter): Subscriber
  {
    Subscriber(f, [], 0, [], [])
  }

  ghost predicate Increasing(es: seq<Entry>)
  {
    forall i, j :: 0 <= i < j < |es| ==> es[i].seqNo < es[j].seqNo
  }

  /** What a subscriber has not been offered. */
  function News(es: seq<Entry>, s: Subscriber): seq<Entry>
  {
    Matching(es, (e: Entry) => e.seqNo > s.lastSeq && s.filter(e))
  }

  /** One publish to one subscriber: the news go out as a batch, or are dropped if its channel is full. */
  function Flushed(es: seq<Entry>, s: Subscriber): Subscriber
  {
    var batch := News(es, s);
    if batch == [] then s
    else
      var seen := s.(lastSeq := batch[|batch| - 1].seqNo);
      if |s.queue| < CHANNEL_SIZE then seen.(queue := s.queue + [batch], sent := s.sent + batch) else seen
  }

  /** The subscriber takes the oldest batch out of its channel, if there is one. */
  function Taken(s: Subscriber): Subscriber
  {
    if s.queue == [] then s else s.(queue := s.queue[1..], got := s.got + s.queue[0])
  }

  /** The entries of the batches, in turn. */
  function Flat(queue: seq<seq<Entry>>): seq<Entry>
  {
    if queue == [] then [] else queue[0] + Flat(queue[1..])
  }

  /** Everything ever added is numbered from 1. */
  ghost predicate Numbered(added: seq<Entry>)
  {
    forall i :: 0 <= i < |added| ==> added[i].seqNo == i + 1
  }

  /** log is the end of what was added. */
  ghost predicate Logged(added: seq<Entry>, log: seq<Entry>)
  {
    Numbered(added) && |log| <= |added| && log == added[|added| - |log|..]
  }

  /** What a subscriber was sent is in order, none of it twice, all of it added and matching and not
      above its mark; what it took out and what waits in its channel are what it was sent. */
  ghost predicate SubscriberOk(added: seq<Entry>, s: Subscriber)
  {
    Increasing(s.sent) && s.lastSeq <= |added| && (forall e :: e in s.sent ==> e in added && e.seqNo <= s.lastSeq && s.filter(e)) &&
    |s.queue| <= CHANNEL_SIZE && s.got + Flat(s.queue) == s.sent
  }

  ghost predicate AllOk(added: seq<Entry>, subs: map<nat, Subscriber>)
  {
    forall id :: id in subs ==> SubscriberOk(added, subs[id])
  }

  /** A publish of es to every subscriber. */
  ghost predicate FlushedTo(es: seq<Entry>, was: map<nat, Subscriber>, now: map<nat, Subscriber>)
  {
    now.Keys == was.Keys && forall id :: id in now ==> now[id] == Flushed(es, was[id])
  }

  class Ring {
    var buf: array<Entry>
    var len: nat
    var next: nat
    var count: nat
    var seqNo: nat
    var subs: map<nat, Subscriber>
    var subNext: nat
    /** Everything ever added, and of that everything since the ring was last cleared. */
    ghost var added: seq<Entry>
    ghost var log: seq<Entry>

    /** What an ordered read gives, oldest first. */
    ghost function View(): seq<Entry>
      reads this`buf, this`len, this`next, this`count, buf
      requires len <= buf.Length && next <= buf.Length && count <= len
    {
      if count < buf.Length then buf[..count] else buf[next..] + buf[..next]
    }

    ghost predicate Shaped()
      reads this`buf, this`len, this`next, this`count
    {
      buf.Length > 0 && len == count <= buf.Length && next < buf.Length && (count < buf.Length ==> next == 0)
    }

    /** The array holds the last entries of the log. */
    ghost predicate Stored()
      reads this`buf, this`len, this`next, this`count, this`seqNo, this`added, this`log, buf
    {
      Shaped() && Logged(added, log) && |added| == seqNo && View() == LastOf(log, buf.Length)
    }

    ghost predicate Valid()
      reads this, buf
    {
      Stored() && AllOk(added, subs) && forall id :: id in subs ==> id < subNext
    }

    /** What the steps of a run are about. */
    ghost function Value(): State
      reads this
    {
      State(added, subs, subNext)
    }

    constructor (capacity: int)
      ensures Valid() && fresh(buf) && log == [] && Value() == State([], map[], 0) && buf.Length == if capacity <= 0 then DEFAULT_CAPACITY else capacity
    {
      var n := if capacity <= 0 then DEFAULT_CAPACITY else capacity;
      buf := new Entry[n];
      len, next, count, seqNo, subs, subNext, added, log := 0, 0, 0, 0, map[], 0, [], [];
      new;
      hide SubscriberOk;
      assert View() == [];
    }

    /** Puts e in the next slot: behind the others, or over the oldest when the ring is full. */
    method Put(e: Entry)
      requires Shaped()
      modifies this`len, this`next, this`count, buf
      ensures Shaped() && View() == (if old(count) < buf.Length then old(View()) else old(View())[1..]) + [e]
    {
      ghost var at, was := next, buf[..];
      if len < buf.Length {
        buf[len] := e;
        len := len + 1;
        count := count + 1;
        assert buf[..count] == was[..count - 1] + [e];
        assert buf[0..] + buf[..0] == buf[..];
      } else {
        buf[next] := e;
        next := (next + 1) % buf.Length;
        Rotated(was, buf[..], at, e);
      }
    }

    /** Adds e, over the oldest entry when the ring is full. */
    method Add(e: Entry) returns (kept: Entry)
      requires Valid()
      modifies this`len, this`next, this`count, this`seqNo, this`added, this`log, buf
      ensures Valid() && seqNo == old(seqNo) + 1 && kept == Kept(e, seqNo) && log == old(log) + [kept]
      ensures Value() == Next(old(Value()), AddEntry(e))
      ensures kept.seqNo == seqNo && kept.content == e.content && kept.size == e.size && kept.decodeErr == e.decodeErr
      ensures if e.size > 600 && e.decodeErr == "" then kept.hexTrunc && kept.hex == "" else kept.hexTrunc == e.hexTrunc && kept.hex == e.hex
    {
      hide AllOk, Kept, View, Shaped, Logged, LastOf;
      AllGrow(added, Kept(e, seqNo + 1), subs);
      kept := Keep(e, seqNo + 1);
      Store(kept);
    }

    method Store(kept: Entry)
      requires Stored() && kept.seqNo == seqNo + 1
      modifies this`len, this`next, this`count, this`seqNo, this`added, this`log, buf
      ensures Stored() && seqNo == old(seqNo) + 1 && log == old(log) + [kept] && added == old(added) + [kept]
    {
      ViewLength();
      LogGrows(added, log, kept, buf.Length);
      hide LastOf, Logged, View, Shaped;
      seqNo := seqNo + 1;
      Put(kept);
      log, added := log + [kept], added + [kept];
    }

    static method Keep(e: Entry, seqNo: nat) returns (kept: Entry)
      ensures kept == Kept(e, seqNo) && kept.seqNo == seqNo && kept.content == e.content && kept.size == e.size && kept.decodeErr == e.decodeErr
      ensures if e.size > 600 && e.decodeErr == "" then kept.hexTrunc && kept.hex == "" else kept.hexTrunc == e.hexTrunc && kept.hex == e.hex
    {
      kept := e.(seqNo := seqNo);
      if kept.size > HEX_THRESHOLD && kept.decodeErr == "" {
        kept := kept.(hexTrunc := true, hex := "");
      }
    }

    lemma ViewLength()
      requires Stored()
      ensures count < buf.Length <==> |log| < buf.Length
      ensures |log| < buf.Length ==> View() == log
    {
      assert |View()| == count;
    }

    /** Empties the ring; numbers go on from where they were. */
    method Clear()
      requires Valid()
      modifies this`len, this`next, this`count, this`log
      ensures Valid() && log == [] && seqNo == old(seqNo) && Value() == old(Value())
    {
      len, next, count, log := 0, 0, 0, [];
    }

    method Ordered() returns (out: seq<Entry>)
      requires Valid()
      ensures out == LastOf(log, buf.Length)
    {
      if count < buf.Length {
        return buf[..count];
      }
      return buf[next..] + buf[..next];
    }

    /** The most recent entries that match, at most limit of them unless it is 0. */
    method Snapshot(f: Filter, limit: nat) returns (out: seq<Entry>)
      requires Valid()
      ensures out == if limit > 0 then LastOf(Matching(LastOf(log, buf.Length), f), limit) else Matching(LastOf(log, buf.Length), f)
    {
      var ordered := Ordered();
      out := [];
      for i := 0 to |ordered|
        invariant out == Matching(ordered[..i], f)
      {
        assert ordered[..i + 1][..i] == ordered[..i];
        if f(ordered[i]) {
          out := out + [ordered[i]];
        }
      }
      assert ordered[..|ordered|] == ordered;
      if limit > 0 && |out| > limit {
        out := out[|out| - limit..];
      }
    }

    method Subscribe(f: Filter) returns (id: nat)
      requires Valid()
      modifies this`subs, this`subNext
      ensures Valid() && id == old(subNext) && Value() == Next(old(Value()), Join(f))
      ensures id !in old(subs) && subs == old(subs)[id := Subscriber(f, [], 0, [], [])]
    {
      id := subNext;
      subNext := subNext + 1;
      subs := subs[id := NewSubscriber(f)];
    }

    method Cancel(id: nat)
      requires Valid()
      modifies this`subs
      ensures Valid() && Value() == Next(old(Value()), Leave(id)) && subs == old(subs) - {id}
    {
      subs := subs - {id};
    }

    /** The subscriber's turn to take a batch. */
    method Receive(id: nat) returns (batch: seq<Entry>)
      requires Valid() && id in subs
      modifies this`subs
      ensures Valid() && Value() == Next(old(Value()), TakeOut(id))
      ensures batch == if old(subs)[id].queue == [] then [] else old(subs)[id].queue[0]
      ensures old(subs)[id].queue == [] ==> subs == old(subs)
      ensures old(subs)[id].queue != [] ==>
                subs == old(subs)[id := old(subs)[id].(queue := old(subs)[id].queue[1..], got := old(subs)[id].got + batch)]
    {
      var s := subs[id];
      batch := [];
      TakenOk(added, s);
      if |s.queue| > 0 {
        batch := s.queue[0];
        subs := subs[id := s.(queue := s.queue[1..], got := s.got + batch)];
      }
    }

    /** Flushes to every subscriber what it was not offered yet; the subscribers come in any order. */
    method Publish()
      requires Valid()
      modifies this`subs
      ensures Valid() && FlushedTo(LastOf(log, buf.Length), old(subs), subs)
    {
      hide Flushed, LastOf, SubscriberOk, Logged, Numbered, View, Shaped, AllOk, FlushedTo;
      var ordered := Ordered();
      LastStretch(added, log, buf.Length);
      subs := FlushAll(ordered, subs);
      AllFlushed(added, |added| - |ordered|, old(subs), subs);
    }

    static method FlushAll(ordered: seq<Entry>, was: map<nat, Subscriber>) returns (now: map<nat, Subscriber>)
      ensures FlushedTo(ordered, was, now)
    {
      hide Flushed;
      now := was;
      var rest := was.Keys;
      while rest != {}
        invariant rest <= was.Keys && now.Keys == was.Keys
        invariant forall id :: id in now ==> now[id] == if id in rest then was[id] else Flushed(ordered, was[id])
      {
        var id :| id in rest;
        rest := rest - {id};
        var s := Flush(ordered, now[id]);
        now := now[id := s];
      }
    }

    static method Flush(ordered: seq<Entry>, s: Subscriber) returns (now: Subscriber)
      ensures now == Flushed(ordered, s)
    {
      var batch: seq<Entry> := [];
      for i := 0 to |ordered|
        invariant batch == News(ordered[..i], s)
      {
        assert ordered[..i + 1][..i] == ordered[..i];
        if ordered[i].seqNo > s.lastSeq && s.filter(ordered[i]) {
          batch := batch + [ordered[i]];
        }
      }
      assert ordered[..|ordered|] == ordered;
      if |batch| == 0 {
        return s;
      }
      now := s.(lastSeq := batch[|batch| - 1].seqNo);
      if |now.queue| < CHANNEL_SIZE {
        now := now.(queue := now.queue + [batch], sent := now.sent + batch);
      }
    }
  }

  // ---------------------------------------------------------------- the ring is the last entries

  lemma Rotated(was: seq<Entry>, now: seq<Entry>, at: nat, e: Entry)
    requires at < |was| && now == was[at := e]
    ensures var next := (at + 1) % |was|;
            now[next..] + now[..next] == (was[at..] + was[..at])[1..] + [e]
  {
    var n := |was|;
    var next := (at + 1) % n;
    if at + 1 < n {
      assert next == at + 1;
      assert now[next..] == was[next..];
      assert was[at..][1..] == was[next..];
      assert now[..next] == was[..at] + [e];
    } else {
      assert next == 0;
      assert was[at..] == [was[at]];
      assert now == was[..at] + [e];
    }
  }

  // ---------------------------------------------------------------- what a subscriber is sent

  lemma {:induction false} MatchingIn(es: seq<Entry>, f: Filter)
    ensures forall e :: e in Matching(es, f) <==> e in es && f(e)
  {
    if es != [] {
      var init, last := es[..|es| - 1], es[|es| - 1];
      MatchingIn(init, f);
      assert forall e :: e in es <==> e in init || e == last by {
        assert es == init + [last];
      }
    }
  }

  lemma {:induction false} MatchingOrder(es: seq<Entry>, f: Filter)
    requires Increasing(es)
    ensures Increasing(Matching(es, f))
  {
    if es != [] {
      var init, last := es[..|es| - 1], es[|es| - 1];
      MatchingOrder(init, f);
      MatchingIn(init, f);
      var before := Matching(init, f);
      forall i | 0 <= i < |before| ensures before[i].seqNo < last.seqNo {
        assert before[i] in init;
        var j :| 0 <= j < |init| && init[j] == before[i];
        assert es[j] == init[j];
      }
    }
  }

  lemma MatchingAre(es: seq<Entry>, f: Filter)
    requires Increasing(es)
    ensures Increasing(Matching(es, f)) && forall e :: e in Matching(es, f) <==> e in es && f(e)
    ensures forall e :: e in Matching(es, f) ==> e.seqNo <= Matching(es, f)[|Matching(es, f)| - 1].seqNo
  {
    MatchingIn(es, f);
    MatchingOrder(es, f);
  }

  /** A snapshot of the ring, whenever it was taken, is a stretch of all that was added. */
  ghost predicate IsStretch(added: seq<Entry>, from: nat, to: nat)
  {
    from <= to <= |added|
  }

  lemma StretchOrder(added: seq<Entry>, from: nat, to: nat)
    requires Numbered(added) && IsStretch(added, from, to)
    ensures Increasing(added[from..to]) && forall e :: e in added[from..to] <==> e in added && from < e.seqNo <= to
  {
    var es := added[from..to];
    assert forall i :: 0 <= i < |es| ==> es[i] == added[from + i];
    forall e | e in added && from < e.seqNo <= to ensures e in es {
      var i :| 0 <= i < |added| && added[i] == e;
      assert es[i - from] == e;
    }
  }

  /** One more entry at the end of the log. */
  lemma LogGrows(added: seq<Entry>, log: seq<Entry>, e: Entry, n: nat)
    requires Logged(added, log) && e.seqNo == |added| + 1 && n > 0
    ensures Logged(added + [e], log + [e])
    ensures LastOf(log + [e], n) == (if |log| < n then log else LastOf(log, n)[1..]) + [e]
  {}

  lemma LastStretch(added: seq<Entry>, log: seq<Entry>, n: nat)
    requires Logged(added, log)
    ensures Numbered(added) && |LastOf(log, n)| <= |added| && LastOf(log, n) == added[|added| - |LastOf(log, n)|..|added|]
  {}

  lemma AllGrow(added: seq<Entry>, e: Entry, subs: map<nat, Subscriber>)
    requires AllOk(added, subs)
    ensures AllOk(added + [e], subs)
  {
    hide SubscriberOk;
    forall id | id in subs ensures SubscriberOk(added + [e], subs[id]) {
      OkGrows(added, [e], subs[id]);
    }
  }

  lemma OkGrows(added: seq<Entry>, more: seq<Entry>, s: Subscriber)
    requires SubscriberOk(added, s)
    ensures SubscriberOk(added + more, s)
  {}

  lemma TakenOk(added: seq<Entry>, s: Subscriber)
    requires SubscriberOk(added, s)
    ensures SubscriberOk(added, Taken(s))
  {
    if s.queue != [] {
      assert s.got + (s.queue[0] + Flat(s.queue[1..])) == (s.got + s.queue[0]) + Flat(s.queue[1..]);
    }
  }

  lemma {:induction false} FlatJoined(queue: seq<seq<Entry>>, batch: seq<Entry>)
    ensures Flat(queue + [batch]) == Flat(queue) + batch
  {
    if queue == [] {
      assert [batch][1..] == [];
    } else {
      FlatJoined(queue[1..], batch);
      assert (queue + [batch])[1..] == queue[1..] + [batch];
    }
  }

  lemma NewsAre(added: seq<Entry>, from: nat, to: nat, s: Subscriber)
    requires Numbered(added) && IsStretch(added, from, to)
    ensures var news := News(added[from..to], s);
            Increasing(news) && (forall e :: e in news <==> e in added && from < e.seqNo <= to && e.seqNo > s.lastSeq && s.filter(e)) &&
            forall e :: e in news ==> e.seqNo <= news[|news| - 1].seqNo
  {
    StretchOrder(added, from, to);
    MatchingAre(added[from..to], (e: Entry) => e.seqNo > s.lastSeq && s.filter(e));
    hide Matching, Increasing, Numbered;
  }

  /** A publish, of a snapshot that may be old by now, leaves a subscriber in order. */
  lemma FlushedOk(added: seq<Entry>, from: nat, to: nat, s: Subscriber)
    requires Numbered(added) && IsStretch(added, from, to) && SubscriberOk(added, s)
    ensures SubscriberOk(added, Flushed(added[from..to], s))
  {
    var news := News(added[from..to], s);
    NewsAre(added, from, to, s);
    FlatJoined(s.queue, news);
    hide News, Numbered, Flat;
    if news != [] {
      assert news[|news| - 1] in news;
      OrderJoined(s.sent, news, s.lastSeq);
      hide Increasing;
      assert s.got + (Flat(s.queue) + news) == (s.got + Flat(s.queue)) + news;
    }
  }

  lemma OrderJoined(a: seq<Entry>, b: seq<Entry>, mark: nat)
    requires Increasing(a) && Increasing(b) && (forall e :: e in a ==> e.seqNo <= mark) && forall e :: e in b ==> e.seqNo > mark
    ensures Increasing(a + b)
  {
    assert forall i :: 0 <= i < |a| ==> a[i] in a;
    assert forall i :: 0 <= i < |b| ==> b[i] in b;
  }

  lemma AllFlushed(added: seq<Entry>, from: nat, was: map<nat, Subscriber>, now: map<nat, Subscriber>)
    requires Numbered(added) && from <= |added| && AllOk(added, was) && FlushedTo(added[from..|added|], was, now)
    ensures AllOk(added, now) && now.Keys == was.Keys
  {
    hide SubscriberOk, Flushed, Numbered;
    forall id | id in now ensures SubscriberOk(added, now[id]) {
      FlushedOk(added, from, |added|, was[id]);
    }
  }

  // ---------------------------------------------------------------- runs

  /** The ring as its subscribers see it: everything ever added, and the subscribers. */
  datatype State = State(added: seq<Entry>, subs: map<nat, Subscriber>, subNext: nat)

  /** One step of a run. Publishing is a step for each subscriber, with the snapshot taken before: other
      steps may come between the snapshot and the flush. Emptying the ring adds nothing and takes nothing
      back, so it is no step of its own: it shows in the snapshots that follow. */
  datatype Step = AddEntry(e: Entry) | Join(f: Filter) | Leave(id: nat) | TakeOut(id: nat) | FlushTo(id: nat, from: nat, to: nat)

  function Next(st: State, step: Step): State
  {
    match step
    case AddEntry(e) => st.(added := st.added + [Kept(e, |st.added| + 1)])
    case Join(f) => st.(subs := st.subs[st.subNext := NewSubscriber(f)], subNext := st.subNext + 1)
    case Leave(id) => st.(subs := st.subs - {id})
    case TakeOut(id) => if id in st.subs then st.(subs := st.subs[id := Taken(st.subs[id])]) else st
    case FlushTo(id, from, to) =>
      if id in st.subs && from <= to <= |st.added| then st.(subs := st.subs[id := Flushed(st.added[from..to], st.subs[id])]) else st
  }

  function Run(st: State, steps: seq<Step>): State
  {
    if steps == [] then st else Next(Run(st, steps[..|steps| - 1]), steps[|steps| - 1])
  }

  ghost predicate Ok(st: State)
  {
    Numbered(st.added) && AllOk(st.added, st.subs)
  }

  lemma NextOk(st: State, step: Step)
    requires Ok(st)
    ensures Ok(Next(st, step))
  {
    hide SubscriberOk, Flushed, Taken;
    match step
    case AddEntry(e) =>
      forall id | id in st.subs ensures SubscriberOk(Next(st, step).added, st.subs[id]) {
        OkGrows(st.added, [Kept(e, |st.added| + 1)], st.subs[id]);
      }
    case Join(f) => NewOk(st.added, f);
    case Leave(id) =>
    case TakeOut(id) =>
      if id in st.subs {
        TakenOk(st.added, st.subs[id]);
      }
    case FlushTo(id, from, to) =>
      if id in st.subs && from <= to <= |st.added| {
        FlushedOk(st.added, from, to, st.subs[id]);
      }
  }

  lemma NewOk(added: seq<Entry>, f: Filter)
    ensures SubscriberOk(added, NewSubscriber(f))
  {}

  /** Over every run of adds, publishes, receives, subscriptions and cancellations, however interleaved,
      every subscriber gets entries that were added and match its filter, in order, none twice, and what
      it was sent is what it took and what still waits for it. */
  lemma {:induction false} RunKeepsOrder(st: State, steps: seq<Step>)
    requires Ok(st)
    ensures Ok(Run(st, steps))
  {
    hide Ok;
    if steps != [] {
      RunKeepsOrder(st, steps[..|steps| - 1]);
      NextOk(Run(st, steps[..|steps| - 1]), steps[|steps| - 1]);
    }
  }

  /** So what a subscriber took out, over such a run, is in order and all for it. */
  lemma TakenInOrder(st: State, steps: seq<Step>, id: nat)
    requires Ok(st) && id in Run(st, steps).subs
    ensures var s := Run(st, steps).subs[id];
            s.got <= s.sent && Increasing(s.got) && forall e :: e in s.got ==> e in Run(st, steps).added && s.filter(e)
  {
    RunKeepsOrder(st, steps);
    hide Flat, Numbered, Run;
    var s := Run(st, steps).subs[id];
    assert SubscriberOk(Run(st, steps).added, s);
    assert forall e :: e in s.got ==> e in s.got + Flat(s.queue);
  }

  function Turns(ids: seq<nat>, from: nat, to: nat): seq<Step>
  {
    seq(|ids|, i requires 0 <= i < |ids| => FlushTo(ids[i], from, to))
  }

  /** A publish nothing comes between is the turns of the subscribers, in any order. */
  lemma {:induction false} PublishIsRun(st: State, ids: seq<nat>, from: nat)
    requires from <= |st.added| && (forall i :: 0 <= i < |ids| ==> ids[i] in st.subs) && forall i, j :: 0 <= i < j < |ids| ==> ids[i] != ids[j]
    ensures var now := Run(st, Turns(ids, from, |st.added|));
            now.added == st.added && now.subNext == st.subNext && now.subs.Keys == st.subs.Keys &&
            forall id :: id in st.subs ==>
              now.subs[id] == if id in ids then Flushed(st.added[from..|st.added|], st.subs[id]) else st.subs[id]
  {
    hide Flushed;
    if ids != [] {
      var n := |ids| - 1;
      assert ids == ids[..n] + [ids[n]];
      PublishIsRun(st, ids[..n], from);
      assert Turns(ids, from, |st.added|)[..n] == Turns(ids[..n], from, |st.added|);
    }
  }

  // ---------------------------------------------------------------- what a subscriber misses

  /** e is for s, was added, lies under its mark and was never put in its channel. */
  ghost predicate Missed(added: seq<Entry>, s: Subscriber, e: Entry)
  {
    e in added && e.seqNo <= s.lastSeq && s.filter(e) && e !in s.sent
  }

  /** A flush makes a subscriber miss exactly the matching entries, above its old mark and not above its
      new one, that had left the ring when the snapshot was taken or find its channel full. */
  lemma FlushMisses(added: seq<Entry>, from: nat, to: nat, s: Subscriber, e: Entry)
    requires Numbered(added) && IsStretch(added, from, to) && SubscriberOk(added, s)
    ensures var now := Flushed(added[from..to], s);
            Missed(added, now, e) <==>
              Missed(added, s, e) ||
              (e in added && s.filter(e) && s.lastSeq < e.seqNo <= now.lastSeq && (e.seqNo <= from || |s.queue| >= CHANNEL_SIZE))
  {
    var news := News(added[from..to], s);
    NewsAre(added, from, to, s);
    hide News, Numbered, Increasing;
    if news != [] {
      assert news[|news| - 1] in news;
    }
  }

  /** With room in the channel a flush offers, and takes for sent, everything of the snapshot above the mark. */
  lemma FlushSends(added: seq<Entry>, from: nat, to: nat, s: Subscriber, e: Entry)
    requires Numbered(added) && IsStretch(added, from, to) && SubscriberOk(added, s) && |s.queue| < CHANNEL_SIZE
    ensures e in Flushed(added[from..to], s).sent <==>
              e in s.sent || (e in added && from < e.seqNo <= to && e.seqNo > s.lastSeq && s.filter(e))
  {
    NewsAre(added, from, to, s);
    hide News, Numbered, Increasing;
  }

  lemma NextLater(st: State, step: Step, id: nat)
    requires Ok(st) && id in st.subs && id in Next(st, step).subs && id < st.subNext
    ensures var s, now := st.subs[id], Next(st, step).subs[id];
            s.lastSeq <= now.lastSeq && s.sent <= now.sent && s.got <= now.got && now.filter == s.filter && st.added <= Next(st, step).added &&
            (forall e :: e in now.sent && e !in s.sent ==> e.seqNo > s.lastSeq) && st.subNext <= Next(st, step).subNext
  {
    if step.FlushTo? && step.id == id && step.from <= step.to <= |st.added| {
      NewsAre(st.added, step.from, step.to, st.subs[id]);
      hide News, Numbered, Increasing, SubscriberOk;
      var news := News(st.added[step.from..step.to], st.subs[id]);
      if news != [] {
        assert news[|news| - 1] in news;
      }
    }
  }

  /** What a subscriber missed it never gets: a batch dropped for a full channel is not made up for, whatever
      is added, taken and published afterwards. What it was sent stays sent. */
  lemma {:induction false} MissedForGood(st: State, steps: seq<Step>, id: nat)
    requires Ok(st) && id in st.subs && id < st.subNext
    requires forall n :: 0 <= n < |steps| ==> steps[n] != Leave(id)
    ensures id in Run(st, steps).subs && id < Run(st, steps).subNext
    ensures var s, now := st.subs[id], Run(st, steps).subs[id];
            s.sent <= now.sent && s.got <= now.got && st.added <= Run(st, steps).added && s.lastSeq <= now.lastSeq && now.filter == s.filter
    ensures forall e :: Missed(st.added, st.subs[id], e) ==> Missed(Run(st, steps).added, Run(st, steps).subs[id], e)
  {
    if steps != [] {
      var before, last := steps[..|steps| - 1], steps[|steps| - 1];
      MissedForGood(st, before, id);
      RunKeepsOrder(st, before);
      var mid := Run(st, before);
      assert last != Leave(id);
      assert id in Next(mid, last).subs;
      NextLater(mid, last, id);
    }
  }

  /** A subscriber to everything, and k times an entry added and published, with nothing received. */
  function Rounds(k: nat, e: Entry): seq<Step>
  {
    if k == 0 then [Join(EVERYTHING)] else Rounds(k - 1, e) + [AddEntry(e), FlushTo(0, k - 1, k)]
  }

  const EMPTY_STATE := State([], map[], 0)
  const EVERYTHING: Filter := e => true

  lemma RunJoined(st: State, a: seq<Step>, x: Step, y: Step)
    ensures Run(st, a + [x, y]) == Next(Next(Run(st, a), x), y)
  {
    var all := a + [x, y];
    assert all[..|all| - 1] == a + [x] && (a + [x])[..|a|] == a;
  }

  /** The k-th entry is its own news. */
  lemma RoundNews(added: seq<Entry>, s: Subscriber, k: nat)
    requires Numbered(added) && |added| == k > 0 && s.lastSeq == k - 1 && s.filter(added[k - 1])
    ensures News(added[k - 1..k], s) == [added[k - 1]]
  {
    OneMatches(added[k - 1], (e: Entry) => e.seqNo > s.lastSeq && s.filter(e));
    assert added[k - 1..k] == [added[k - 1]];
  }

  lemma OneMatches(e: Entry, f: Filter)
    requires f(e)
    ensures Matching([e], f) == [e]
  {
    assert [e][..0] == [];
  }

  ghost predicate AfterRounds(st: State, k: nat)
  {
    |st.added| == k && Numbered(st.added) && 0 in st.subs &&
    var s := st.subs[0];
    s.filter == EVERYTHING && s.lastSeq == k && |s.queue| == (if k <= CHANNEL_SIZE then k else CHANNEL_SIZE) &&
    forall x :: x in s.sent ==> x.seqNo <= CHANNEL_SIZE
  }

  lemma OneRound(st: State, k: nat, e: Entry)
    requires 0 < k <= CHANNEL_SIZE + 1 && AfterRounds(st, k - 1)
    ensures AfterRounds(Next(Next(st, AddEntry(e)), FlushTo(0, k - 1, k)), k)
  {
    hide News;
    var added := Next(st, AddEntry(e)).added;
    assert added[k - 1].seqNo == k && EVERYTHING(added[k - 1]);
    RoundNews(added, st.subs[0], k);
  }

  lemma {:induction false} RoundsAre(k: nat, e: Entry)
    requires k <= CHANNEL_SIZE + 1
    ensures AfterRounds(Run(EMPTY_STATE, Rounds(k, e)), k)
  {
    hide AfterRounds, Next;
    if k == 0 {
      NoRounds(e);
    } else {
      RoundsAre(k - 1, e);
      OneRound(Run(EMPTY_STATE, Rounds(k - 1, e)), k, e);
      RunJoined(EMPTY_STATE, Rounds(k - 1, e), AddEntry(e), FlushTo(0, k - 1, k));
    }
  }

  lemma NoRounds(e: Entry)
    ensures AfterRounds(Run(EMPTY_STATE, Rounds(0, e)), 0)
  {
    assert Rounds(0, e)[..0] == [];
  }

  /** The ninth entry finds the channel full and is missed. */
  lemma NinthMissed(e: Entry)
    ensures var st := Run(EMPTY_STATE, Rounds(9, e));
            0 in st.subs && |st.added| == 9 && Missed(st.added, st.subs[0], st.added[8])
  {
    hide Run, Rounds;
    RoundsAre(9, e);
    var st := Run(EMPTY_STATE, Rounds(9, e));
    assert st.added[8].seqNo == 9 && EVERYTHING(st.added[8]);
  }

  /** The ring's entries are numbered one after another. */
  lemma RingInOrder(log: seq<Entry>, seqNo: nat, n: nat)
    requires |log| <= seqNo && forall i :: 0 <= i < |log| ==> log[i].seqNo == seqNo - |log| + i + 1
    ensures Increasing(LastOf(log, n))
    ensures var view := LastOf(log, n); forall i :: 0 <= i < |view| ==> view[i].seqNo == seqNo - |view| + i + 1
  {}
}
