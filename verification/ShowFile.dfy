/** The show-file encoding: every distinct fixture profile is stored once under a key taken of its
    content, and each entry points at its own. */
module ShowFile {
  import opened Prelude

  const CURRENT_SCHEMA: int := 8

  type ChannelMap = map<uint16, string>
  type Tree = map<string, string>

  /** A patch entry: rest is everything stored with the entry itself, phaseWeight lives in memory only. */
  datatype Entry = Entry(
    rest: string,
    fixtureType: string,
    mode: string,
    channels: ChannelMap,
    wheels: seq<string>,
    wheelsKnown: bool,
    shortName: string,
    tree: Option<Tree>,
    phaseWeight: uint16)

  datatype Patch = Patch(schema: int, rest: string, entries: seq<Entry>)

  /** A profile as the file shows it: an empty tree is left out like an unknown one. */
  datatype Profile = Profile(fixtureType: string, mode: string, channels: ChannelMap, wheels: seq<string>, wheelsKnown: bool,
                             shortName: string, tree: Option<Tree>)

  /** The digest of a profile's content, taken to tell profiles apart. */
  datatype ProfileKey = KeyOf(content: Profile) | OtherKey(text: string)

  /** An entry in a file: profile none for an entry without one; the inline fields are those of files before profiles. */
  datatype DiskEntry = DiskEntry(
    rest: string,
    fixtureType: string,
    mode: string,
    inlineChannels: ChannelMap,
    inlineWheels: seq<string>,
    inlineWheelsKnown: bool,
    inlineShortName: string,
    inlineTree: Option<Tree>,
    profile: Option<ProfileKey>)

  datatype Document = Document(schema: int, rest: string, entries: seq<DiskEntry>, profiles: map<ProfileKey, Profile>)

  datatype DecodeError = NewerSchema | MissingProfile | BothProfileAndInline

  predicate HasProfile(e: Entry)
  {
    e.channels != map[] || e.wheelsKnown || e.wheels != []
  }

  // ---------------------------------------------------------------- encoding

  function Omitted(tree: Option<Tree>): Option<Tree>
  {
    if tree == Some(map[]) then None else tree
  }

  function ProfileOf(e: Entry): Profile
  {
    Profile(e.fixtureType, e.mode, e.channels, e.wheels, e.wheelsKnown, e.shortName, Omitted(e.tree))
  }

  function EncodeEntry(e: Entry): DiskEntry
  {
    DiskEntry(e.rest, e.fixtureType, e.mode, map[], [], false, "", None, if HasProfile(e) then Some(KeyOf(ProfileOf(e))) else None)
  }

  function ProfileTable(es: seq<Entry>): map<ProfileKey, Profile>
  {
    if es == [] then map[]
    else
      var e := es[|es| - 1];
      var before := ProfileTable(es[..|es| - 1]);
      if HasProfile(e) then before[KeyOf(ProfileOf(e)) := ProfileOf(e)] else before
  }

  function EncodeEntries(es: seq<Entry>): seq<DiskEntry>
  {
    seq(|es|, i requires 0 <= i < |es| => EncodeEntry(es[i]))
  }

  function Encode(p: Patch): Document
  {
    Document(p.schema, p.rest, EncodeEntries(p.entries), ProfileTable(p.entries))
  }

  method EncodeShowFile(p: Patch) returns (d: Document)
    ensures d == Encode(p)
  {
    var entries: seq<DiskEntry>, profiles: map<ProfileKey, Profile> := [], map[];
    for i := 0 to |p.entries|
      invariant entries == EncodeEntries(p.entries[..i]) && profiles == ProfileTable(p.entries[..i])
    {
      assert p.entries[..i + 1][..i] == p.entries[..i];
      var e := p.entries[i];
      var de := DiskEntry(e.rest, e.fixtureType, e.mode, map[], [], false, "", None, None);
      if HasProfile(e) {
        var prof := ProfileOf(e);
        profiles := profiles[KeyOf(prof) := prof];
        de := de.(profile := Some(KeyOf(prof)));
      }
      entries := entries + [de];
    }
    assert p.entries[..|p.entries|] == p.entries;
    d := Document(p.schema, p.rest, entries, profiles);
  }

  // ---------------------------------------------------------------- decoding

  predicate InlineProfile(de: DiskEntry)
  {
    de.inlineChannels != map[] || de.inlineWheelsKnown || de.inlineWheels != []
  }

  function DecodeEntry(d: Document, de: DiskEntry): Result<Entry, DecodeError>
  {
    match de.profile
    case None => Ok(Entry(de.rest, de.fixtureType, de.mode, de.inlineChannels, de.inlineWheels, de.inlineWheelsKnown, de.inlineShortName, de.inlineTree, 0))
    case Some(key) =>
      if key !in d.profiles then Err(MissingProfile)
      else if InlineProfile(de) then Err(BothProfileAndInline)
      else
        var prof := d.profiles[key];
        Ok(Entry(de.rest, de.fixtureType, de.mode, prof.channels, prof.wheels, prof.wheelsKnown, prof.shortName,
                 if prof.tree.Some? then prof.tree else de.inlineTree, 0))
  }

  function DecodeEntries(d: Document, des: seq<DiskEntry>): Result<seq<Entry>, DecodeError>
  {
    if des == [] then Ok([])
    else
      match DecodeEntries(d, des[..|des| - 1])
      case Err(e) => Err(e)
      case Ok(es) =>
        match DecodeEntry(d, des[|des| - 1])
        case Err(e) => Err(e)
        case Ok(e) => Ok(es + [e])
  }

  function Decode(d: Document): Result<Patch, DecodeError>
  {
    if d.schema > CURRENT_SCHEMA then Err(NewerSchema)
    else
      match DecodeEntries(d, d.entries)
      case Err(e) => Err(e)
      case Ok(es) => Ok(Patch(CURRENT_SCHEMA, d.rest, es))
  }

  method DecodeShowFile(d: Document) returns (r: Result<Patch, DecodeError>)
    ensures r == Decode(d)
  {
    if d.schema > CURRENT_SCHEMA {
      return Err(NewerSchema);
    }
    var es: seq<Entry> := [];
    for i := 0 to |d.entries|
      invariant DecodeEntries(d, d.entries[..i]) == Ok(es)
    {
      hide DecodeEntry;
      assert d.entries[..i + 1][..i] == d.entries[..i];
      var e := DecodeEntry(d, d.entries[i]);
      if e.Err? {
        FirstErrorStays(d, i + 1);
        return Err(e.error);
      }
      es := es + [e.value];
    }
    assert d.entries[..|d.entries|] == d.entries;
    return Ok(Patch(CURRENT_SCHEMA, d.rest, es));
  }

  lemma {:induction false} FirstErrorStays(d: Document, n: nat)
    requires n <= |d.entries| && DecodeEntries(d, d.entries[..n]).Err?
    ensures DecodeEntries(d, d.entries) == DecodeEntries(d, d.entries[..n])
    decreases |d.entries| - n
  {
    hide DecodeEntry;
    if n < |d.entries| {
      assert d.entries[..n + 1][..n] == d.entries[..n];
      FirstErrorStays(d, n + 1);
    } else {
      assert d.entries[..n] == d.entries;
    }
  }

  // ---------------------------------------------------------------- the round trip

  /** What the file keeps of an entry: all of a profiled one but an empty tree; of any other neither short
      name nor tree. */
  function Stored(e: Entry): Entry
  {
    if HasProfile(e) then e.(tree := Omitted(e.tree), phaseWeight := 0)
    else e.(shortName := "", tree := None, phaseWeight := 0)
  }

  function StoredAll(es: seq<Entry>): seq<Entry>
  {
    seq(|es|, i requires 0 <= i < |es| => Stored(es[i]))
  }

  /** The table holds the profile of every entry that has one, under its key, and no other. */
  lemma {:induction false} TableExact(es: seq<Entry>)
    ensures forall k :: k in ProfileTable(es) <==> exists i :: 0 <= i < |es| && HasProfile(es[i]) && k == KeyOf(ProfileOf(es[i]))
    ensures forall k :: k in ProfileTable(es) ==> k == KeyOf(ProfileTable(es)[k])
  {
    hide HasProfile, ProfileOf;
    if es != [] {
      var init := es[..|es| - 1];
      TableExact(init);
      assert forall i :: 0 <= i < |init| ==> init[i] == es[i];
      forall k | k in ProfileTable(es) ensures exists i :: 0 <= i < |es| && HasProfile(es[i]) && k == KeyOf(ProfileOf(es[i])) {
        if k in ProfileTable(init) {
          var i :| 0 <= i < |init| && HasProfile(init[i]) && k == KeyOf(ProfileOf(init[i]));
          assert HasProfile(es[i]);
        }
      }
    }
  }

  /** Two profiled entries share a profile exactly when their profiles are equal in content. */
  lemma SharedExactly(e: Entry, f: Entry)
    requires HasProfile(e) && HasProfile(f)
    ensures EncodeEntry(e).profile == EncodeEntry(f).profile <==>
              e.fixtureType == f.fixtureType && e.mode == f.mode && e.channels == f.channels && e.wheels == f.wheels &&
              e.wheelsKnown == f.wheelsKnown && e.shortName == f.shortName && Omitted(e.tree) == Omitted(f.tree)
  {}

  lemma EntryComesBack(d: Document, e: Entry)
    requires HasProfile(e) ==> KeyOf(ProfileOf(e)) in d.profiles && d.profiles[KeyOf(ProfileOf(e))] == ProfileOf(e)
    ensures DecodeEntry(d, EncodeEntry(e)) == Ok(Stored(e))
  {}

  lemma {:induction false} EntriesComeBack(d: Document, es: seq<Entry>)
    requires forall i :: 0 <= i < |es| && HasProfile(es[i]) ==>
               KeyOf(ProfileOf(es[i])) in d.profiles && d.profiles[KeyOf(ProfileOf(es[i]))] == ProfileOf(es[i])
    ensures DecodeEntries(d, EncodeEntries(es)) == Ok(StoredAll(es))
  {
    hide EncodeEntry, DecodeEntry, Stored, ProfileOf, HasProfile;
    if es != [] {
      var init, e := es[..|es| - 1], es[|es| - 1];
      EntriesComeBack(d, init);
      EntryComesBack(d, e);
      assert EncodeEntries(es)[..|es| - 1] == EncodeEntries(init);
      assert StoredAll(es) == StoredAll(init) + [Stored(e)];
    }
  }

  /** Reading a written show gives back every entry as the file keeps it, each with its own profile. */
  lemma RoundTrip(p: Patch)
    requires p.schema <= CURRENT_SCHEMA
    ensures Decode(Encode(p)) == Ok(Patch(CURRENT_SCHEMA, p.rest, StoredAll(p.entries)))
  {
    TableExact(p.entries);
    hide HasProfile, ProfileOf, EncodeEntry, DecodeEntry;
    forall i | 0 <= i < |p.entries| && HasProfile(p.entries[i])
      ensures KeyOf(ProfileOf(p.entries[i])) in ProfileTable(p.entries) &&
              ProfileTable(p.entries)[KeyOf(ProfileOf(p.entries[i]))] == ProfileOf(p.entries[i])
    {
      assert KeyOf(ProfileOf(p.entries[i])) in ProfileTable(p.entries);
    }
    EntriesComeBack(Encode(p), p.entries);
  }

  /** The entry comes back as it was. */
  predicate Survives(e: Entry)
  {
    e.phaseWeight == 0 && if HasProfile(e) then e.tree != Some(map[]) else e.shortName == "" && e.tree == None
  }

  /** A show comes back as it was exactly when no entry has a tree known to be empty, no entry without a
      profile has a short name or a tree, and no runtime weight is set. */
  lemma NothingLost(p: Patch)
    requires p.schema == CURRENT_SCHEMA
    ensures Decode(Encode(p)) == Ok(p) <==> forall i :: 0 <= i < |p.entries| ==> Survives(p.entries[i])
  {
    RoundTrip(p);
    hide Encode, Decode;
    if StoredAll(p.entries) == p.entries {
      forall i | 0 <= i < |p.entries| ensures Survives(p.entries[i]) {
        assert StoredAll(p.entries)[i] == Stored(p.entries[i]);
      }
    }
    if forall i :: 0 <= i < |p.entries| ==> Survives(p.entries[i]) {
      forall i | 0 <= i < |p.entries| ensures Stored(p.entries[i]) == p.entries[i] {}
      assert StoredAll(p.entries) == p.entries;
    }
  }

  /** A tree known to be empty comes back unknown. */
  lemma EmptyTreeLost()
    ensures var e := Entry("", "Bar", "Basic", map[1 := "Dimmer"], [], false, "", Some(map[]), 0);
            Stored(e) == e.(tree := None) && Stored(e) != e
  {}

  lemma {:induction false} StoredEncodes(es: seq<Entry>)
    ensures EncodeEntries(StoredAll(es)) == EncodeEntries(es) && ProfileTable(StoredAll(es)) == ProfileTable(es)
  {
    if es != [] {
      var init := es[..|es| - 1];
      StoredEncodes(init);
      assert StoredAll(es)[..|es| - 1] == StoredAll(init);
      forall i | 0 <= i < |es| ensures EncodeEntry(Stored(es[i])) == EncodeEntry(es[i]) {}
    }
  }

  /** Writing what was read writes the same file again. */
  lemma WriteReadWrite(p: Patch)
    requires p.schema == CURRENT_SCHEMA
    ensures Decode(Encode(p)).Ok? && Encode(Decode(Encode(p)).value) == Encode(p)
  {
    RoundTrip(p);
    StoredEncodes(p.entries);
  }

  /** A file is refused exactly when it is newer than this build, or an entry points at a profile the
      file lacks or has an inline map besides. */
  lemma {:induction false} EntriesRefused(d: Document, des: seq<DiskEntry>)
    ensures DecodeEntries(d, des).Ok? <==> forall i :: 0 <= i < |des| && des[i].profile.Some? ==> des[i].profile.value in d.profiles && !InlineProfile(des[i])
  {
    hide InlineProfile;
    if des != [] {
      var init := des[..|des| - 1];
      EntriesRefused(d, init);
      assert forall i :: 0 <= i < |init| ==> init[i] == des[i];
    }
  }
}
