/** The modes of a fixture-library record and how one incoming mode is folded into a stored one. */
module LibraryModes {
  import opened Prelude

  // ---------------------------------------------------------------- data

  datatype Provenance = Unstated | GdtfFile | RdmObserved | ByHand

  datatype Origin = Origin(source: Provenance, detail: string, at: int)

  /** What an import before full channel detail knew of a channel; text is everything but the default. */
  datatype Plain = Plain(text: string, hasDefault: bool, default: nat, defaultByteCount: nat)

  /** detail is the later channel detail, none where there is none of it. */
  datatype Channel = Channel(plain: Plain, detail: Option<string>)

  type ChannelMap = map<uint16, Channel>

  /** The half of a mode that describes the fixture, and what a verification stamp is taken of. */
  datatype Payload = Payload(name: string, footprint: uint16, channels: ChannelMap, wheels: seq<string>, wheelsKnown: bool)

  /** A digest: none, that of a payload, or a string that is no payload's. Digests are taken to tell payloads apart. */
  datatype Hash = NoHash | Of(payload: Payload) | Foreign(text: string)

  datatype Stamp = Stamp(hash: Hash, at: int, note: string)

  const NO_STAMP := Stamp(NoHash, 0, "")

  datatype Mode = Mode(payload: Payload, origin: Origin, stamp: Stamp)

  // ---------------------------------------------------------------- names

  predicate IsSpace(c: char) { c == ' ' || c == '\t' || c == '\n' || c == '\r' }

  function LowerChar(c: char): char { if 'A' <= c <= 'Z' then c - 'A' + 'a' else c }

  /** Lower case, every run of white space one space, none at the ends. */
  function Fold(s: string): string
  {
    if s == "" then ""
    else
      var before := Fold(s[..|s| - 1]);
      var c := s[|s| - 1];
      if IsSpace(c) then before
      else if before != "" && IsSpace(s[..|s| - 1][|s| - 2]) then before + [' ', LowerChar(c)]
      else before + [LowerChar(c)]
  }

  function ModeKey(m: Mode): string { Fold(m.payload.name) }

  // ---------------------------------------------------------------- one mode into another

  function ModeHash(m: Mode): Hash { Of(m.payload) }

  /** A stamp stands only for the payload it was taken of. */
  function CheckStamp(m: Mode): Mode
  {
    if m.stamp.hash == ModeHash(m) then m else m.(stamp := NO_STAMP)
  }

  predicate StampOk(m: Mode)
  {
    m.stamp == NO_STAMP || m.stamp.hash == ModeHash(m)
  }

  predicate HasDetail(m: ChannelMap)
  {
    exists o :: o in m && m[o].detail.Some?
  }

  function Plains(m: ChannelMap): map<uint16, Plain>
  {
    map o | o in m :: m[o].plain
  }

  /** The stored map without detail, and without the defaults only it states. */
  function AsKnownTo(stored: ChannelMap, incoming: ChannelMap): map<uint16, Plain>
  {
    map o | o in stored ::
      if o in incoming && !incoming[o].plain.hasDefault && stored[o].plain.hasDefault
      then stored[o].plain.(hasDefault := false, default := 0, defaultByteCount := 0)
      else stored[o].plain
  }

  /** incoming is the stored profile, known in less detail. */
  predicate LessDetailed(incoming: Payload, stored: Payload)
  {
    !incoming.wheelsKnown && incoming.wheels == [] && incoming.footprint == stored.footprint &&
    !HasDetail(incoming.channels) &&
    (HasDetail(stored.channels) || stored.wheelsKnown) &&
    incoming.channels != map[] && Plains(incoming.channels) == AsKnownTo(stored.channels, incoming.channels)
  }

  /** The incoming mode, with what is kept of the stored one. */
  function Kept(stored: Mode, incoming: Mode): Mode
  {
    if LessDetailed(incoming.payload, stored.payload) then stored
    else if incoming.payload.channels == map[] && stored.payload.channels != map[]
    then incoming.(payload := incoming.payload.(channels := stored.payload.channels), origin := stored.origin)
    else if stored.payload == incoming.payload && stored.origin.source == incoming.origin.source then incoming.(origin := stored.origin)
    else incoming
  }

  function Named(m: Mode, stored: Mode): Mode
  {
    if m.payload.name == "" then m.(payload := m.payload.(name := stored.payload.name)) else m
  }

  function Stamped(m: Mode, stored: Mode): Mode
  {
    var now := if stored.payload == m.payload && m.stamp.hash == NoHash then m.(stamp := stored.stamp) else m;
    if now.stamp.hash != NoHash && now.stamp.hash != ModeHash(now) then now.(stamp := NO_STAMP) else now
  }

  /** One normalised incoming mode merged into the stored mode of its name. */
  function MergeMode(stored: Mode, incoming: Mode): Mode
  {
    Stamped(Named(Kept(stored, incoming), stored), stored)
  }

  /** Merging the same mode again changes nothing. */
  lemma MergeModeTwice(stored: Mode, incoming: Mode)
    requires StampOk(incoming) && (stored.stamp.hash == NoHash ==> stored.stamp == NO_STAMP)
    ensures var now := MergeMode(stored, incoming); MergeMode(now, incoming) == now
  {
    var now := MergeMode(stored, incoming);
    if LessDetailed(incoming.payload, stored.payload) {
      assert now.payload == stored.payload;
    } else if incoming.payload.channels == map[] && stored.payload.channels != map[] {
      hide LessDetailed;
    } else if stored.payload == incoming.payload && stored.origin.source == incoming.origin.source {
      assert now.payload == stored.payload;
      hide LessDetailed;
    }
  }

  /** What a merge keeps: the name's key, a populated channel map, and only a stamp that still fits. */
  lemma MergeModeKeeps(stored: Mode, incoming: Mode)
    requires Fold(stored.payload.name) == Fold(incoming.payload.name)
    ensures ModeKey(MergeMode(stored, incoming)) == ModeKey(stored)
    ensures stored.payload.channels != map[] ==> MergeMode(stored, incoming).payload.channels != map[]
    ensures StampOk(incoming) && (stored.stamp.hash == NoHash ==> stored.stamp == NO_STAMP) ==> StampOk(MergeMode(stored, incoming))
  {
    hide LessDetailed;
  }

  // ---------------------------------------------------------------- what a merge may lose

  /** The wheels of the stored mode outlive a merge exactly when the incoming mode is the same profile in
      less detail or has the same wheels: a mode that only knows its footprint keeps the channel map it
      meets, but not the wheels. */
  lemma WheelsKept(stored: Mode, incoming: Mode)
    ensures MergeMode(stored, incoming).payload.wheels == stored.payload.wheels <==>
              LessDetailed(incoming.payload, stored.payload) || incoming.payload.wheels == stored.payload.wheels
  {
    hide LessDetailed;
  }

  /** A mode observed over RDM, which knows no channels, takes the wheels of the imported mode it meets. */
  lemma WheelsLost()
    ensures var channels: ChannelMap := map[1 := Channel(Plain("Gobo1", false, 0, 0), None)];
            var imported := Mode(Payload("Basic", 1, channels, ["Gobo Wheel"], true), Origin(GdtfFile, "", 0), NO_STAMP);
            var observed := Mode(Payload("Basic", 1, map[], [], false), Origin(RdmObserved, "", 0), NO_STAMP);
            MergeMode(imported, observed).payload == Payload("Basic", 1, channels, [], false)
  {}
}
