/** What a request for an attribute stands for, told by the channel's functions: which function it names,
    and the value in it that DMX, a fraction, a physical value, a channel set or a wheel slot ask. */
module ValueLaws {
  import opened Prelude
  import opened ChannelMap
  import opened ChannelValues

  // ---------------------------------------------------------------- well-formed requests

  /** The one value a request gives. */
  datatype Ask = AskDmx(value: nat) | AskFraction(share: real) | AskPhysical(at: real) | AskSet(name: string) | AskSlot(number: nat)

  predicate AskOk(a: Ask)
  {
    (a.AskDmx? ==> a.value <= 0xFFFF_FFFF) && (a.AskFraction? ==> 0.0 <= a.share <= 1.0) && (a.AskSlot? ==> a.number >= 1)
  }

  /** r gives a, and no other value. */
  predicate Asks(r: Request, a: Ask)
  {
    r.dmx == (if a.AskDmx? then Some(a.value as real) else None) && r.fraction == (if a.AskFraction? then Some(a.share) else None) &&
    r.physical == (if a.AskPhysical? then Some(a.at) else None) && r.set_ == (if a.AskSet? then Some(a.name) else None) &&
    r.slot == if a.AskSlot? then Some(a.number) else None
  }

  /** The value of r, where it gives one. */
  function AskOf(r: Request): Ask
  {
    if r.dmx.Some? then AskDmx(if r.dmx.value >= 0.0 then r.dmx.value.Floor else 0)
    else if r.fraction.Some? then AskFraction(r.fraction.value)
    else if r.physical.Some? then AskPhysical(r.physical.value)
    else if r.set_.Some? then AskSet(r.set_.value)
    else AskSlot(if r.slot.Some? && r.slot.value >= 0 then r.slot.value else 0)
  }

  /** A request is well-formed exactly when it names an attribute, gives one value, in range, and names a
      function in one way at most; any other asks for nothing. */
  lemma RequestIs(r: Request, p: Parameter, d: ChannelDetail)
    ensures RequestOk(r) <==>
              (exists i :: 0 <= i < |r.attribute| && r.attribute[i] !in {' ', '\t', '\n', '\r'}) && (exists a :: Asks(r, a) && AskOk(a)) &&
              (r.functionName == "" || r.functionIndex.None?) && (r.function_ == "" || (r.functionName == "" && r.functionIndex.None?))
    ensures !RequestOk(r) ==> ResolveValue(r, p, d).Err?
  {
    hide ResolveGiven;
    if RequestOk(r) {
      assert Asks(r, AskOf(r)) && AskOk(AskOf(r));
    }
  }

  // ---------------------------------------------------------------- the function a request names

  /** fi is the function r names: the one of that number, the only one of that name, or the first of that
      attribute; -1 where it names none. */
  predicate Named(r: Request, fs: seq<Function>, fi: int)
  {
    if r.functionIndex.Some? then fi == r.functionIndex.value && 0 <= fi < |fs|
    else if r.functionName != "" then
      0 <= fi < |fs| && fs[fi].name == r.functionName && forall j :: 0 <= j < |fs| && j != fi ==> fs[j].name != r.functionName
    else if r.function_ != "" then
      0 <= fi < |fs| && fs[fi].attribute == r.function_ && forall j :: 0 <= j < fi ==> fs[j].attribute != r.function_
    else fi == -1
  }

  lemma NamedIs(r: Request, d: ChannelDetail, fi: int)
    ensures NamedFunction(r, d) == Ok(fi) <==> Named(r, d.functions, fi)
  {}

  /** The function a physical value is placed in: the one named, else the first of the channel's own attribute. */
  predicate PhysicalIn(r: Request, p: Parameter, fs: seq<Function>, fi: int)
  {
    0 <= fi < |fs| &&
    if NamesFunction(r) then Named(r, fs, fi)
    else fs[fi].attribute == p.attribute && forall j :: 0 <= j < fi ==> fs[j].attribute != p.attribute
  }

  // ---------------------------------------------------------------- values in a range

  /** v is the point at share f of the range from lo to hi, to the nearest step. */
  ghost predicate AtShare(lo: int, hi: int, f: real, v: int)
  {
    lo <= v <= hi && (f == 0.0 ==> v == lo) && (f == 1.0 ==> v == hi) && -0.5 <= lo as real + f * (hi - lo) as real - v as real <= 0.5
  }

  lemma SpanAtShare(lo: uint32, hi: uint32, f: real)
    requires lo <= hi && 0.0 <= f <= 1.0
    ensures AtShare(lo, hi, f, Span(lo, hi, f))
  {
    SpanInside(lo, hi, f);
    hide Span;
    assert Share(f, hi - lo) == f * (hi - lo) as real;
  }

  /** A larger share is nowhere a smaller value. */
  lemma SpanRises(lo: uint32, hi: uint32, f: real, g: real)
    requires lo <= hi && 0.0 <= f <= g <= 1.0
    ensures Span(lo, hi, f) <= Span(lo, hi, g)
  {
    SpanInside(lo, hi, f);
    SpanInside(lo, hi, g);
    ShareRises(f, g, hi - lo);
    RoundRises(Share(f, hi - lo), Share(g, hi - lo));
  }

  lemma ShareRises(f: real, g: real, n: nat)
    requires f <= g
    ensures Share(f, n) <= Share(g, n)
  {
    assert (g - f) * n as real >= 0.0;
  }

  lemma RoundRises(x: real, y: real)
    requires x <= y
    ensures Round(x) <= Round(y)
  {}

  // ---------------------------------------------------------------- what is asked

  /** A DMX request asks the value it gives, in the function it names, and is refused beyond the channel or
      outside that function. */
  lemma DmxAsks(r: Request, p: Parameter, d: ChannelDetail, v: uint32, fi: int)
    requires RequestOk(r) && r.dmx.Some?
    ensures ResolveValue(r, p, d) == Ok(Resolved(v, fi)) <==>
              Named(r, d.functions, fi) && r.dmx.value == v as real && v <= p.max &&
              (fi >= 0 ==> d.functions[fi].dmxFrom <= v <= d.functions[fi].dmxTo)
  {
    hide NamedFunction, Blank;
    NamedIs(r, d, fi);
    if NamedFunction(r, d).Ok? {
      NamedIs(r, d, NamedFunction(r, d).value);
    }
  }

  /** The range a fraction is taken of: the function named, or the whole channel. */
  function RangeOf(p: Parameter, fs: seq<Function>, fi: int): (int, int)
    requires fi < |fs|
  {
    if fi < 0 then (0, p.max) else (fs[fi].dmxFrom, fs[fi].dmxTo)
  }

  /** A fraction asks that share of the function named, or of the whole channel: its bottom at 0 and its top
      at 1. */
  lemma FractionAsks(r: Request, p: Parameter, d: ChannelDetail)
    requires RequestOk(r) && r.fraction.Some? && ProfileOk(p, d)
    ensures ResolveValue(r, p, d).Ok? <==> exists fi :: Named(r, d.functions, fi)
    ensures ResolveValue(r, p, d).Ok? ==>
              var res := ResolveValue(r, p, d).value;
              Named(r, d.functions, res.function_) && res.function_ < |d.functions| &&
              var (lo, hi) := RangeOf(p, d.functions, res.function_);
              AtShare(lo, hi, r.fraction.value, res.value)
  {
    hide Blank, AtShare, Span;
    if NamedFunction(r, d).Ok? {
      var fi := NamedFunction(r, d).value;
      NamedIs(r, d, fi);
      if fi < 0 {
        SpanAtShare(0, p.max, r.fraction.value);
      } else {
        SpanAtShare(d.functions[fi].dmxFrom, d.functions[fi].dmxTo, r.fraction.value);
      }
    } else if fi :| Named(r, d.functions, fi) {
      NamedIs(r, d, fi);
    }
  }

  /** Asking more never gives less. */
  lemma FractionRises(r: Request, more: Request, p: Parameter, d: ChannelDetail)
    requires RequestOk(r) && RequestOk(more) && r.fraction.Some? && more == r.(fraction := more.fraction) && more.fraction.Some? && ProfileOk(p, d)
    requires r.fraction.value <= more.fraction.value
    ensures ResolveValue(r, p, d).Ok? <==> ResolveValue(more, p, d).Ok?
    ensures ResolveValue(r, p, d).Ok? ==> ResolveValue(r, p, d).value.value <= ResolveValue(more, p, d).value.value
  {
    hide Blank, Span;
    assert NamedFunction(r, d) == NamedFunction(more, d);
    if NamedFunction(r, d).Ok? {
      var fi := NamedFunction(r, d).value;
      if fi < 0 {
        SpanRises(0, p.max, r.fraction.value, more.fraction.value);
      } else {
        SpanRises(d.functions[fi].dmxFrom, d.functions[fi].dmxTo, r.fraction.value, more.fraction.value);
      }
    }
  }

  // ---------------------------------------------------------------- physical values

  /** The share of f's physical range that x is. */
  function PhysicalShareOf(f: Function, x: real): real
    requires f.physicalFrom != f.physicalTo
  {
    (x - f.physicalFrom) / (f.physicalTo - f.physicalFrom)
  }

  predicate InPhysicalRange(f: Function, x: real)
  {
    (f.physicalFrom < f.physicalTo && f.physicalFrom <= x <= f.physicalTo) || (f.physicalTo < f.physicalFrom && f.physicalTo <= x <= f.physicalFrom)
  }

  lemma OwnFunction(p: Parameter, fs: seq<Function>, r: Request)
    requires !NamesFunction(r)
    ensures var own := FirstWith(fs, (f: Function) => f.attribute == p.attribute, 0);
            forall fi :: PhysicalIn(r, p, fs, fi) <==> fi == own && own < |fs|
  {}

  /** A physical value is placed in its function, never clamped: at the share of the DMX range that it is of
      the physical one, which may run either way. */
  lemma PhysicalAsks(r: Request, p: Parameter, d: ChannelDetail)
    requires RequestOk(r) && r.physical.Some? && ProfileOk(p, d)
    ensures ResolveValue(r, p, d).Ok? <==> exists fi :: PhysicalIn(r, p, d.functions, fi) && InPhysicalRange(d.functions[fi], r.physical.value)
    ensures ResolveValue(r, p, d).Ok? ==>
              var res := ResolveValue(r, p, d).value;
              PhysicalIn(r, p, d.functions, res.function_) && InPhysicalRange(d.functions[res.function_], r.physical.value) &&
              var f := d.functions[res.function_];
              AtShare(f.dmxFrom, f.dmxTo, PhysicalShareOf(f, r.physical.value), res.value)
  {
    hide Blank, AtShare, Span, FirstWith;
    var own := FirstWith(d.functions, (f: Function) => f.attribute == p.attribute, 0);
    if NamesFunction(r) {
      if NamedFunction(r, d).Ok? {
        NamedIs(r, d, NamedFunction(r, d).value);
        PhysicalAt(d.functions[NamedFunction(r, d).value], NamedFunction(r, d).value, r.physical.value);
      }
      forall fi ensures PhysicalIn(r, p, d.functions, fi) <==> NamedFunction(r, d) == Ok(fi) {
        NamedIs(r, d, fi);
      }
    } else {
      OwnFunction(p, d.functions, r);
      if own < |d.functions| {
        PhysicalAt(d.functions[own], own, r.physical.value);
      }
    }
  }

  lemma PhysicalAt(f: Function, fi: int, x: real)
    requires f.dmxFrom <= f.dmxTo
    ensures PlacePhysical(f, fi, x).Ok? <==> InPhysicalRange(f, x)
    ensures PlacePhysical(f, fi, x).Ok? ==>
              PlacePhysical(f, fi, x).value.function_ == fi && AtShare(f.dmxFrom, f.dmxTo, PhysicalShareOf(f, x), PlacePhysical(f, fi, x).value.value)
  {
    hide Span, AtShare;
    if InPhysicalRange(f, x) {
      PhysicalShare(f.physicalFrom, f.physicalTo, x);
      SpanAtShare(f.dmxFrom, f.dmxTo, PhysicalShareOf(f, x));
    }
  }

  /** Further along the physical range is nowhere further back in DMX. */
  lemma PhysicalRises(f: Function, fi: int, x: real, y: real)
    requires f.dmxFrom <= f.dmxTo && InPhysicalRange(f, x) && InPhysicalRange(f, y)
    requires if f.physicalFrom < f.physicalTo then x <= y else y <= x
    ensures PlacePhysical(f, fi, x).Ok? && PlacePhysical(f, fi, y).Ok? && PlacePhysical(f, fi, x).value.value <= PlacePhysical(f, fi, y).value.value
  {
    hide Span;
    PhysicalShare(f.physicalFrom, f.physicalTo, x);
    PhysicalShare(f.physicalFrom, f.physicalTo, y);
    SharesInOrder(f.physicalFrom, f.physicalTo, x, y);
    SpanRises(f.dmxFrom, f.dmxTo, PhysicalShareOf(f, x), PhysicalShareOf(f, y));
  }

  lemma SharesInOrder(from: real, to: real, x: real, y: real)
    requires if from < to then x <= y else to < from && y <= x
    ensures (x - from) / (to - from) <= (y - from) / (to - from)
  {
    var d := to - from;
    var a, b := (x - from) / d, (y - from) / d;
    assert a * d == x - from && b * d == y - from;
    assert (a - b) * d == x - y;
    Signs(a - b, d);
  }

  lemma Signs(u: real, d: real)
    ensures u > 0.0 && d > 0.0 ==> u * d > 0.0
    ensures u > 0.0 && d < 0.0 ==> u * d < 0.0
  {}

  // ---------------------------------------------------------------- channel sets and wheel slots

  /** Set j of function i passes test, in the function fi where one is named, on a wheel where wheels are asked. */
  predicate SetHit(fs: seq<Function>, fi: int, wheelsOnly: bool, test: ChannelSet -> bool, i: int, j: int)
  {
    0 <= i < |fs| && 0 <= j < |fs[i].sets| && (fi >= 0 ==> i == fi) && (wheelsOnly ==> fs[i].wheel != "") && test(fs[i].sets[j])
  }

  /** It is the first. */
  ghost predicate FirstHit(fs: seq<Function>, fi: int, wheelsOnly: bool, test: ChannelSet -> bool, i: int, j: int)
  {
    SetHit(fs, fi, wheelsOnly, test, i, j) && forall k, l :: k < i || (k == i && l < j) ==> !SetHit(fs, fi, wheelsOnly, test, k, l)
  }

  /** v selects the set: its start where it names one physical state or is all of 32 bits, else its middle. */
  predicate Selects(s: ChannelSet, v: int)
  {
    if s.physicalFrom == s.physicalTo || s.dmxTo <= s.dmxFrom || (s.dmxFrom == 0 && s.dmxTo == 0xFFFF_FFFF) then v == s.dmxFrom
    else s.dmxFrom + s.dmxTo <= 2 * v <= s.dmxFrom + s.dmxTo + 1
  }

  lemma SetValueSelects(s: ChannelSet)
    ensures Selects(s, SetValue(s))
  {}

  lemma {:induction false} FirstSetAt(ss: seq<ChannelSet>, test: ChannelSet -> bool) returns (j: nat)
    ensures j <= |ss| && (forall l :: 0 <= l < j ==> !test(ss[l]))
    ensures if j < |ss| then test(ss[j]) && FirstSet(ss, test) == Some(ss[j]) else FirstSet(ss, test) == None
  {
    j := 0;
    if ss != [] && !test(ss[0]) {
      var i := FirstSetAt(ss[1..], test);
      j := i + 1;
    }
  }

  lemma {:induction false} SetFromIs(fs: seq<Function>, n: nat, fi: int, wheelsOnly: bool, test: ChannelSet -> bool) returns (i: int, j: int)
    requires n <= |fs| && forall k, l :: k < n ==> !SetHit(fs, fi, wheelsOnly, test, k, l)
    ensures var res := SetFrom(fs, n, fi, wheelsOnly, test);
            if res.Some? then FirstHit(fs, fi, wheelsOnly, test, i, j) && res.value.function_ == i && Selects(fs[i].sets[j], res.value.value)
            else forall k, l :: !SetHit(fs, fi, wheelsOnly, test, k, l)
    decreases |fs| - n
  {
    i, j := 0, 0;
    if n < |fs| {
      var at := FirstSetAt(fs[n].sets, test);
      if (fi >= 0 && n != fi) || (wheelsOnly && fs[n].wheel == "") || at == |fs[n].sets| {
        i, j := SetFromIs(fs, n + 1, fi, wheelsOnly, test);
      } else {
        SetValueSelects(fs[n].sets[at]);
        i, j := n, at;
      }
    }
  }

  /** The set of r's name, and the one of r's wheel slot. */
  function NameTest(r: Request): ChannelSet -> bool
    requires r.set_.Some?
  {
    (s: ChannelSet) => s.name == r.set_.value
  }

  function SlotTest(r: Request): ChannelSet -> bool
    requires r.slot.Some?
  {
    (s: ChannelSet) => s.hasWheelSlot && s.wheelSlot == r.slot.value
  }

  /** res is the first set that passes test, or there is none. */
  ghost predicate LandsOn(res: Result<Resolved, Why>, fs: seq<Function>, fi: int, wheelsOnly: bool, test: ChannelSet -> bool)
  {
    if res.Ok? then
      exists i, j :: FirstHit(fs, fi, wheelsOnly, test, i, j) && res.value.function_ == i && Selects(fs[i].sets[j], res.value.value)
    else forall i, j :: !SetHit(fs, fi, wheelsOnly, test, i, j)
  }

  lemma Landing(fs: seq<Function>, fi: int, wheelsOnly: bool, test: ChannelSet -> bool, why: Why)
    ensures var res := SetFrom(fs, 0, fi, wheelsOnly, test);
            LandsOn(if res.Some? then Ok(res.value) else Err(why), fs, fi, wheelsOnly, test)
  {
    NothingBefore(fs, fi, wheelsOnly, test);
    var i, j := SetFromIs(fs, 0, fi, wheelsOnly, test);
  }

  /** A set request lands on the first set of that name, a slot request on the first of that slot on a wheel,
      in the function named if one is, and is refused exactly where there is none. */
  lemma SetAsks(r: Request, p: Parameter, d: ChannelDetail)
    requires RequestOk(r) && (r.set_.Some? || r.slot.Some?)
    ensures NamedFunction(r, d).Err? ==> ResolveValue(r, p, d).Err?
    ensures NamedFunction(r, d).Ok? ==>
              var fi := NamedFunction(r, d).value;
              Named(r, d.functions, fi) &&
              (r.set_.Some? ==> LandsOn(ResolveValue(r, p, d), d.functions, fi, false, NameTest(r))) &&
              (r.slot.Some? ==> LandsOn(ResolveValue(r, p, d), d.functions, fi, true, SlotTest(r)))
  {
    hide Blank, SetFrom, LandsOn;
    if NamedFunction(r, d).Ok? {
      var fi := NamedFunction(r, d).value;
      NamedIs(r, d, fi);
      if r.set_.Some? {
        Landing(d.functions, fi, false, NameTest(r), NoSuchSet);
      } else {
        Landing(d.functions, fi, true, SlotTest(r), NoSuchSlot);
      }
    }
  }

  lemma NothingBefore(fs: seq<Function>, fi: int, wheelsOnly: bool, test: ChannelSet -> bool)
    ensures forall k, l :: k < 0 ==> !SetHit(fs, fi, wheelsOnly, test, k, l)
  {}
}
