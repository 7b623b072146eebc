/** How a request for an attribute becomes a value of one channel: the function it names, the value in
    DMX, as a fraction, in physical units, by channel set or by wheel slot, and the mode master a
    function needs. */
module ChannelValues {
  import opened Prelude
  import opened ChannelMap

  datatype ChannelSet = ChannelSet(name: string, dmxFrom: uint32, dmxTo: uint32, physicalFrom: real, physicalTo: real,
                                   hasWheelSlot: bool, wheelSlot: int)

  /** What a function's mode master link names: nothing, a channel and a range of it, a function of a
      channel, or something that is neither. */
  datatype MasterLink =
    | NoMaster
    | ChannelLink(channel: string, hasMode: bool, modeFrom: int, modeTo: int)
    | FunctionLink(channel: string, logical: string, name: string)
    | OtherLink(channel: string)

  datatype Function = Function(name: string, attribute: string, logical: string, dmxFrom: uint32, dmxTo: uint32,
                               physicalFrom: real, physicalTo: real, wheel: string, command: bool, master: MasterLink,
                               sets: seq<ChannelSet>)

  datatype Group = DimmerGroup | PositionGroup | ColourGroup | BeamGroup | FocusGroup | ShaperGroup | OtherGroup

  /** The parts of a channel's profile that requests look at. */
  datatype ChannelDetail = ChannelDetail(group: Group, hasDefault: bool, default: uint32, functions: seq<Function>, channelName: string)

  /** A request carries exactly one value and at most one function selector; what it carries is checked. */
  datatype Request = Request(attribute: string, dmx: Option<real>, fraction: Option<real>, physical: Option<real>,
                             set_: Option<string>, slot: Option<int>,
                             function_: string, functionName: string, functionIndex: Option<int>)

  datatype Why =
    | NoSuchFunction | TwoFunctions | BeyondChannel | OutsideFunction | NoOwnFunction | NoPhysicalRange | OutsidePhysical
    | NoSuchSet | NoSuchSlot | NoValue

  /** A value and the function it was placed in, -1 for none. */
  datatype Resolved = Resolved(value: uint32, function_: int)

  function One(given: bool): nat { if given then 1 else 0 }

  predicate Blank(s: string)
  {
    forall i :: 0 <= i < |s| ==> s[i] in {' ', '\t', '\n', '\r'}
  }

  predicate RequestOk(r: Request)
  {
    !Blank(r.attribute) &&
    One(r.dmx.Some?) + One(r.fraction.Some?) + One(r.physical.Some?) + One(r.set_.Some?) + One(r.slot.Some?) == 1 &&
    One(r.function_ != "") + One(r.functionName != "") + One(r.functionIndex.Some?) <= 1 &&
    (r.fraction.Some? ==> 0.0 <= r.fraction.value <= 1.0) &&
    (r.dmx.Some? ==> 0.0 <= r.dmx.value <= 4294967295.0 && r.dmx.value == r.dmx.value.Floor as real) &&
    (r.slot.Some? ==> r.slot.value >= 1)
  }

  predicate NamesFunction(r: Request)
  {
    r.functionIndex.Some? || r.functionName != "" || r.function_ != ""
  }

  // ---------------------------------------------------------------- functions of a channel

  function FirstWith(fs: seq<Function>, test: Function -> bool, i: nat): (j: nat)
    requires i <= |fs|
    ensures i <= j <= |fs| && (j < |fs| ==> test(fs[j])) && forall n :: i <= n < j ==> !test(fs[n])
    decreases |fs| - i
  {
    if i == |fs| || test(fs[i]) then i else FirstWith(fs, test, i + 1)
  }

  function NamedFunction(r: Request, d: ChannelDetail): Result<int, Why>
  {
    if r.functionIndex.Some? then
      if 0 <= r.functionIndex.value < |d.functions| then Ok(r.functionIndex.value) else Err(NoSuchFunction)
    else if r.functionName != "" then
      var test := (f: Function) => f.name == r.functionName;
      var i := FirstWith(d.functions, test, 0);
      if i == |d.functions| then Err(NoSuchFunction)
      else if FirstWith(d.functions, test, i + 1) < |d.functions| then Err(TwoFunctions)
      else Ok(i)
    else if r.function_ != "" then
      var i := FirstWith(d.functions, (f: Function) => f.attribute == r.function_, 0);
      if i == |d.functions| then Err(NoSuchFunction) else Ok(i)
    else Ok(-1)
  }

  predicate Contains(f: Function, v: uint32)
  {
    f.dmxFrom <= v <= f.dmxTo
  }

  /** The function a value lies in: the only one, or among several the first of the channel's own attribute. */
  function ActiveFunction(p: Parameter, d: ChannelDetail, v: uint32): int
  {
    var inside := (f: Function) => Contains(f, v);
    var i := FirstWith(d.functions, inside, 0);
    if i < |d.functions| && FirstWith(d.functions, inside, i + 1) == |d.functions| then i
    else
      var j := FirstWith(d.functions, (f: Function) => Contains(f, v) && f.attribute == p.attribute, 0);
      if j < |d.functions| then j else -1
  }

  /** A value in this function is a fixture command. */
  predicate IsCommand(d: ChannelDetail, fi: int)
  {
    if 0 <= fi < |d.functions| then d.functions[fi].command else d.group.OtherGroup?
  }

  // ---------------------------------------------------------------- values

  function Wrap(n: int): uint32
  {
    n % 0x1_0000_0000
  }

  function Share(f: real, n: nat): real
  {
    f * n as real
  }

  /** The point at share f of the range, in the original's 32-bit arithmetic. */
  function Span(lo: uint32, hi: uint32, f: real): uint32
  {
    Wrap(lo + Round(Share(f, Wrap(hi - lo))))
  }

  /** Where a channel set is selected: at its start, or in its middle when it spans physical values; the
      middle of all 32 bits comes out as the start. */
  function SetValue(s: ChannelSet): uint32
  {
    if s.physicalFrom == s.physicalTo || s.dmxTo <= s.dmxFrom then s.dmxFrom
    else s.dmxFrom + Wrap(s.dmxTo - s.dmxFrom + 1) / 2
  }

  function FirstSet(ss: seq<ChannelSet>, test: ChannelSet -> bool): Option<ChannelSet>
  {
    if ss == [] then None else if test(ss[0]) then Some(ss[0]) else FirstSet(ss[1..], test)
  }

  /** The first set that passes test in the functions from i on, those at fi only when fi names one. */
  function SetFrom(fs: seq<Function>, i: nat, fi: int, wheelsOnly: bool, test: ChannelSet -> bool): Option<Resolved>
    requires i <= |fs|
    decreases |fs| - i
  {
    if i == |fs| then None
    else if (fi >= 0 && i != fi) || (wheelsOnly && fs[i].wheel == "") then SetFrom(fs, i + 1, fi, wheelsOnly, test)
    else
      match FirstSet(fs[i].sets, test)
      case Some(s) => Some(Resolved(SetValue(s), i))
      case None => SetFrom(fs, i + 1, fi, wheelsOnly, test)
  }

  function PlacePhysical(f: Function, fi: int, x: real): Result<Resolved, Why>
  {
    var lo, hi := if f.physicalFrom < f.physicalTo then f.physicalFrom else f.physicalTo, if f.physicalFrom < f.physicalTo then f.physicalTo else f.physicalFrom;
    if f.physicalFrom == f.physicalTo then Err(NoPhysicalRange)
    else if x < lo || x > hi then Err(OutsidePhysical)
    else Ok(Resolved(Span(f.dmxFrom, f.dmxTo, (x - f.physicalFrom) / (f.physicalTo - f.physicalFrom)), fi))
  }

  /** The value a well-formed request asks of one channel. */
  function ResolveValue(r: Request, p: Parameter, d: ChannelDetail): Result<Resolved, Why>
  {
    if !RequestOk(r) then Err(NoValue) else ResolveGiven(r, p, d)
  }

  function ResolveGiven(r: Request, p: Parameter, d: ChannelDetail): Result<Resolved, Why>
    requires RequestOk(r)
  {
    match NamedFunction(r, d)
    case Err(why) => Err(why)
    case Ok(fi) =>
      if r.dmx.Some? then
        var u: nat := r.dmx.value.Floor;
        if u > p.max then Err(BeyondChannel)
        else if fi >= 0 && !Contains(d.functions[fi], u) then Err(OutsideFunction)
        else Ok(Resolved(u, fi))
      else if r.fraction.Some? then
        if fi < 0 then Ok(Resolved(Span(0, p.max, r.fraction.value), -1))
        else Ok(Resolved(Span(d.functions[fi].dmxFrom, d.functions[fi].dmxTo, r.fraction.value), fi))
      else if r.physical.Some? then
        var own := FirstWith(d.functions, (f: Function) => f.attribute == p.attribute, 0);
        if fi >= 0 then PlacePhysical(d.functions[fi], fi, r.physical.value)
        else if own == |d.functions| then Err(NoOwnFunction)
        else PlacePhysical(d.functions[own], own, r.physical.value)
      else if r.set_.Some? then
        (match SetFrom(d.functions, 0, fi, false, (s: ChannelSet) => s.name == r.set_.value)
         case Some(res) => Ok(res)
         case None => Err(NoSuchSet))
      else if r.slot.Some? then
        (match SetFrom(d.functions, 0, fi, true, (s: ChannelSet) => s.hasWheelSlot && s.wheelSlot == r.slot.value)
         case Some(res) => Ok(res)
         case None => Err(NoSuchSlot))
      else Err(NoValue)
  }

  // ---------------------------------------------------------------- facts about values

  /** The ranges of a readable profile: inside the channel, the right way round, sets inside their function. */
  ghost predicate ProfileOk(p: Parameter, d: ChannelDetail)
  {
    forall i :: 0 <= i < |d.functions| ==>
      d.functions[i].dmxFrom <= d.functions[i].dmxTo <= p.max &&
      forall j :: 0 <= j < |d.functions[i].sets| ==>
        d.functions[i].dmxFrom <= d.functions[i].sets[j].dmxFrom <= d.functions[i].dmxTo &&
        d.functions[i].dmxFrom <= d.functions[i].sets[j].dmxTo <= d.functions[i].dmxTo
  }

  lemma ShareBounds(n: nat, f: real)
    requires 0.0 <= f <= 1.0
    ensures 0.0 <= Share(f, n) <= n as real && Share(0.0, n) == 0.0 && Share(1.0, n) == n as real
  {
    var x := n as real;
    Fraction(f, x);
    assert Share(f, n) == f * x && 0.0 * x == 0.0 && 1.0 * x == x;
  }

  lemma Fraction(f: real, x: real)
    requires 0.0 <= f <= 1.0 && x >= 0.0
    ensures 0.0 <= f * x <= x
  {
    assert (1.0 - f) * x >= 0.0;
  }

  lemma RoundBetween(n: nat, x: real)
    requires 0.0 <= x <= n as real
    ensures 0 <= Round(x) <= n
    ensures x == 0.0 ==> Round(x) == 0
    ensures x == n as real ==> Round(x) == n
  {}

  /** A share of a range stays in it and meets both ends. */
  lemma SpanInside(lo: uint32, hi: uint32, f: real)
    requires lo <= hi && 0.0 <= f <= 1.0
    ensures lo <= Span(lo, hi, f) <= hi
    ensures f == 0.0 ==> Span(lo, hi, f) == lo
    ensures f == 1.0 ==> Span(lo, hi, f) == hi
    ensures Span(lo, hi, f) == lo + Round(Share(f, hi - lo))
  {
    var n: nat := hi - lo;
    hide Round, Wrap, Share;
    ShareBounds(n, f);
    RoundBetween(n, Share(f, n));
    WrapsNot(n);
    WrapsNot(lo + Round(Share(f, n)));
  }

  lemma WrapsNot(n: int)
    requires 0 <= n < 0x1_0000_0000
    ensures Wrap(n) == n
  {}

  lemma PhysicalShare(from: real, to: real, x: real)
    requires from != to && (if from < to then from <= x <= to else to <= x <= from)
    ensures 0.0 <= (x - from) / (to - from) <= 1.0
    ensures x == from ==> (x - from) / (to - from) == 0.0
    ensures x == to ==> (x - from) / (to - from) == 1.0
  {
    var d, e := to - from, x - from;
    var q := e / d;
    assert q * d == e;
    if d > 0.0 {
      assert q < 0.0 ==> q * d < 0.0;
      assert q > 1.0 ==> (q - 1.0) * d > 0.0;
    } else {
      assert q < 0.0 ==> q * d > 0.0;
      assert q > 1.0 ==> (q - 1.0) * d < 0.0;
    }
  }

  /** A physical value is placed inside its function, its two ends at the function's two ends. */
  lemma PhysicalPlaced(f: Function, fi: int, x: real)
    requires f.dmxFrom <= f.dmxTo
    ensures PlacePhysical(f, fi, x).Ok? <==>
              (f.physicalFrom < f.physicalTo && f.physicalFrom <= x <= f.physicalTo) || (f.physicalTo < f.physicalFrom && f.physicalTo <= x <= f.physicalFrom)
    ensures PlacePhysical(f, fi, x).Ok? ==> Contains(f, PlacePhysical(f, fi, x).value.value)
    ensures PlacePhysical(f, fi, x).Ok? && x == f.physicalFrom ==> PlacePhysical(f, fi, x).value.value == f.dmxFrom
    ensures PlacePhysical(f, fi, x).Ok? && x == f.physicalTo ==> PlacePhysical(f, fi, x).value.value == f.dmxTo
  {
    if PlacePhysical(f, fi, x).Ok? {
      PhysicalShare(f.physicalFrom, f.physicalTo, x);
      var share := (x - f.physicalFrom) / (f.physicalTo - f.physicalFrom);
      SpanInside(f.dmxFrom, f.dmxTo, share);
    }
    hide Span;
  }

  lemma {:induction false} FirstSetIs(ss: seq<ChannelSet>, test: ChannelSet -> bool)
    ensures FirstSet(ss, test).Some? ==> FirstSet(ss, test).value in ss && test(FirstSet(ss, test).value)
  {
    if ss != [] && !test(ss[0]) {
      FirstSetIs(ss[1..], test);
    }
  }

  lemma {:induction false} SetFromInside(p: Parameter, d: ChannelDetail, i: nat, fi: int, wheelsOnly: bool, test: ChannelSet -> bool)
    requires i <= |d.functions| && ProfileOk(p, d)
    ensures var res := SetFrom(d.functions, i, fi, wheelsOnly, test);
            res.Some? ==> 0 <= res.value.function_ < |d.functions| && Contains(d.functions[res.value.function_], res.value.value) &&
                          (fi >= 0 ==> res.value.function_ == fi)
    decreases |d.functions| - i
  {
    if i < |d.functions| {
      SetFromInside(p, d, i + 1, fi, wheelsOnly, test);
      FirstSetIs(d.functions[i].sets, test);
    }
  }

  /** Whatever a request asks of a channel lies in the channel, and in the function it was placed in;
      where the request names a function, it was placed in that one. */
  lemma ResolvedInside(r: Request, p: Parameter, d: ChannelDetail)
    requires RequestOk(r) && ProfileOk(p, d)
    ensures var res := ResolveValue(r, p, d);
            res.Ok? ==>
              res.value.value <= p.max && res.value.function_ < |d.functions| &&
              (res.value.function_ >= 0 ==> Contains(d.functions[res.value.function_], res.value.value)) &&
              (NamesFunction(r) ==> Ok(res.value.function_) == NamedFunction(r, d) && res.value.function_ >= 0)
  {
    hide Span, Round, Blank, SetValue, FirstSet;
    assert ResolveValue(r, p, d) == ResolveGiven(r, p, d);
    if NamedFunction(r, d).Ok? {
      var fi := NamedFunction(r, d).value;
      if r.fraction.Some? {
        if fi < 0 {
          SpanInside(0, p.max, r.fraction.value);
        } else {
          SpanInside(d.functions[fi].dmxFrom, d.functions[fi].dmxTo, r.fraction.value);
        }
      } else if r.physical.Some? {
        var own := FirstWith(d.functions, (f: Function) => f.attribute == p.attribute, 0);
        if fi >= 0 {
          PhysicalPlaced(d.functions[fi], fi, r.physical.value);
        } else if own < |d.functions| {
          PhysicalPlaced(d.functions[own], own, r.physical.value);
        }
      } else if r.set_.Some? {
        SetFromInside(p, d, 0, fi, false, (s: ChannelSet) => s.name == r.set_.value);
      } else if r.slot.Some? {
        SetFromInside(p, d, 0, fi, true, (s: ChannelSet) => s.hasWheelSlot && s.wheelSlot == r.slot.value);
      }
    }
  }
}
