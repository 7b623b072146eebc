/** Bounds-checked reading and appending of fixed-width fields, each with its own byte order. */
module ByteFields {
  import opened Prelude

  type Bytes = seq<byte>

  /** A field of a packet. A gap is written as zeros and skipped. */
  datatype Field = U8 | U16BE | U16LE | Raw(n: nat) | Text(n: nat) | Gap(n: nat)

  datatype Value = Num(n: nat) | Data(bytes: Bytes) | Nothing

  function Size(f: Field): nat
  {
    match f
    case U8 => 1
    case U16BE => 2
    case U16LE => 2
    case Raw(n) => n
    case Text(n) => n
    case Gap(n) => n
  }

  function TotalSize(fs: seq<Field>): nat
  {
    if fs == [] then 0 else TotalSize(fs[..|fs| - 1]) + Size(fs[|fs| - 1])
  }

  /** The value is one the field can be given: a number of its width, or bytes. */
  predicate Fits(f: Field, v: Value)
  {
    match f
    case U8 => v.Num? && v.n < 0x100
    case U16BE => v.Num? && v.n < 0x1_0000
    case U16LE => v.Num? && v.n < 0x1_0000
    case Raw(n) => v.Data?
    case Text(n) => v.Data?
    case Gap(n) => v.Nothing?
  }

  function Zeros(n: nat): Bytes
  {
    seq(n, i => 0)
  }

  /** Cut or filled with zeros to n bytes. */
  function Padded(b: Bytes, n: nat): (r: Bytes)
    ensures |r| == n
  {
    if |b| >= n then b[..n] else b + Zeros(n - |b|)
  }

  /** The bytes before the first zero. */
  function CutAtZero(b: Bytes): Bytes
  {
    if b == [] || b[0] == 0 then [] else [b[0]] + CutAtZero(b[1..])
  }

  function High(n: nat): byte { n / 0x100 % 0x100 }

  function Low(n: nat): byte { n % 0x100 }

  function Written(f: Field, v: Value): (b: Bytes)
    requires Fits(f, v)
    ensures |b| == Size(f)
  {
    match f
    case U8 => [Low(v.n)]
    case U16BE => [High(v.n), Low(v.n)]
    case U16LE => [Low(v.n), High(v.n)]
    case Raw(n) => Padded(v.bytes, n)
    case Text(n) => Padded(v.bytes, n)
    case Gap(n) => Zeros(n)
  }

  /** The value a field's bytes stand for. */
  function Meaning(f: Field, b: Bytes): (v: Value)
    requires |b| == Size(f)
    ensures Fits(f, v)
  {
    match f
    case U8 => Num(b[0])
    case U16BE => Num(b[0] as int * 0x100 + b[1] as int)
    case U16LE => Num(b[1] as int * 0x100 + b[0] as int)
    case Raw(n) => Data(b)
    case Text(n) => Data(CutAtZero(b))
    case Gap(n) => Nothing
  }

  function ZeroValue(f: Field): Value
  {
    Meaning(f, Zeros(Size(f)))
  }

  /** A value as it comes back: bytes padded to the field, text cut at its first zero or at the field's end. */
  function Canonical(f: Field, v: Value): Value
    requires Fits(f, v)
  {
    match f
    case Raw(n) => Data(Padded(v.bytes, n))
    case Text(n) => Data(CutAtZero(if |v.bytes| >= n then v.bytes[..n] else v.bytes))
    case _ => v
  }

  lemma {:induction false} CutAppend(b: Bytes, n: nat)
    ensures CutAtZero(b + Zeros(n)) == CutAtZero(b)
  {
    if b == [] {
      assert b + Zeros(n) == Zeros(n);
    } else {
      assert (b + Zeros(n))[1..] == b[1..] + Zeros(n);
      CutAppend(b[1..], n);
    }
  }

  /** Reading what was written gives the canonical value. */
  lemma MeaningOfWritten(f: Field, v: Value)
    requires Fits(f, v)
    ensures Meaning(f, Written(f, v)) == Canonical(f, v)
  {
    match f
    case Text(n) =>
      if |v.bytes| < n {
        CutAppend(v.bytes, n - |v.bytes|);
      }
    case _ =>
  }

  // ---------------------------------------------------------------- the cursor

  /** A cursor over bytes. A read past the end fails and does not move it. */
  class Reader {
    const bytes: Bytes
    var offset: nat

    constructor (bytes: Bytes, offset: nat)
      ensures this.bytes == bytes && this.offset == offset
    {
      this.bytes, this.offset := bytes, offset;
    }

    method Take(n: nat) returns (b: Option<Bytes>)
      modifies this
      ensures b.Some? <==> old(offset) + n <= |bytes|
      ensures offset == old(offset) + if b.Some? then n else 0
      ensures b.Some? ==> b.value == bytes[old(offset)..old(offset) + n]
    {
      if offset + n > |bytes| {
        return None;
      }
      b := Some(bytes[offset..offset + n]);
      offset := offset + n;
    }

    /** Reads one field. */
    method ReadField(f: Field) returns (v: Option<Value>)
      modifies this
      ensures v == ReadAt(bytes, old(offset), f) && offset == old(offset) + if v.Some? then Size(f) else 0
    {
      var b := Take(Size(f));
      if b.None? {
        return None;
      }
      return Some(Meaning(f, b.value));
    }
  }

  function ReadAt(b: Bytes, at: nat, f: Field): Option<Value>
  {
    if at + Size(f) <= |b| then Some(Meaning(f, b[at..at + Size(f)])) else None
  }

  /** An append-only buffer. */
  class Writer {
    var bytes: Bytes

    constructor ()
      ensures bytes == []
    {
      bytes := [];
    }

    method WriteField(f: Field, v: Value)
      requires Fits(f, v)
      modifies this
      ensures bytes == old(bytes) + Written(f, v)
    {
      match f {
        case U8 => bytes := bytes + [Low(v.n)];
        case U16BE => bytes := bytes + [High(v.n), Low(v.n)];
        case U16LE => bytes := bytes + [Low(v.n), High(v.n)];
        case Raw(n) => bytes := bytes + Padded(v.bytes, n);
        case Text(n) =>
          var b := v.bytes;
          if |b| > n {
            b := b[..n];
          }
          bytes := bytes + b;
          if |b| < n {
            assert old(bytes) + b + Zeros(n - |b|) == old(bytes) + (b + Zeros(n - |b|));
            bytes := bytes + Zeros(n - |b|);
          }
        case Gap(n) => bytes := bytes + Zeros(n);
      }
    }

    method WriteBytes(b: Bytes)
      modifies this
      ensures bytes == old(bytes) + b
    {
      bytes := bytes + b;
    }
  }

  // ---------------------------------------------------------------- a run of fields

  ghost predicate AllFit(fs: seq<Field>, vs: seq<Value>)
  {
    |vs| == |fs| && forall i :: 0 <= i < |fs| ==> Fits(fs[i], vs[i])
  }

  function AllWritten(fs: seq<Field>, vs: seq<Value>): (b: Bytes)
    requires AllFit(fs, vs)
    ensures |b| == TotalSize(fs)
  {
    if fs == [] then [] else AllWritten(fs[..|fs| - 1], vs[..|fs| - 1]) + Written(fs[|fs| - 1], vs[|fs| - 1])
  }

  function AllCanonical(fs: seq<Field>, vs: seq<Value>): seq<Value>
    requires AllFit(fs, vs)
  {
    seq(|fs|, i requires 0 <= i < |fs| => Canonical(fs[i], vs[i]))
  }

  /** The values of fs read one after another from at; none when they do not all fit. */
  function ReadAll(b: Bytes, at: nat, fs: seq<Field>): Option<seq<Value>>
  {
    if fs == [] then Some([])
    else
      var before := ReadAll(b, at, fs[..|fs| - 1]);
      var v := ReadAt(b, at + TotalSize(fs[..|fs| - 1]), fs[|fs| - 1]);
      if before.Some? && v.Some? then Some(before.value + [v.value]) else None
  }

  /** The values of fs read leniently: a field that does not fit is zero and the cursor stays, so a
      smaller field after it may take what is left. */
  function ReadLenient(b: Bytes, at: nat, fs: seq<Field>): (r: (seq<Value>, nat))
    ensures |r.0| == |fs|
  {
    if fs == [] then ([], at)
    else
      var (before, now) := ReadLenient(b, at, fs[..|fs| - 1]);
      var f := fs[|fs| - 1];
      var v := ReadAt(b, now, f);
      if v.Some? then (before + [v.value], now + Size(f)) else (before + [ZeroValue(f)], now)
  }

  lemma {:induction false} ReadAllWritten(b: Bytes, at: nat, fs: seq<Field>, vs: seq<Value>)
    requires AllFit(fs, vs) && at + TotalSize(fs) <= |b| && b[at..at + TotalSize(fs)] == AllWritten(fs, vs)
    ensures ReadAll(b, at, fs) == Some(AllCanonical(fs, vs))
  {
    hide Fits, Written, Canonical, Meaning;
    if fs != [] {
      var n := |fs| - 1;
      var mid := at + TotalSize(fs[..n]);
      FieldSplit(b, at, fs, vs);
      ReadAllWritten(b, at, fs[..n], vs[..n]);
      MeaningOfWritten(fs[n], vs[n]);
      assert AllCanonical(fs, vs) == AllCanonical(fs[..n], vs[..n]) + [Canonical(fs[n], vs[n])];
    } else {
      assert AllCanonical(fs, vs) == [];
    }
  }

  lemma FieldSplit(b: Bytes, at: nat, fs: seq<Field>, vs: seq<Value>)
    requires fs != [] && AllFit(fs, vs) && at + TotalSize(fs) <= |b| && b[at..at + TotalSize(fs)] == AllWritten(fs, vs)
    ensures var n := |fs| - 1;
            var mid := at + TotalSize(fs[..n]);
            AllFit(fs[..n], vs[..n]) && mid + Size(fs[n]) <= |b| &&
            b[at..mid] == AllWritten(fs[..n], vs[..n]) && b[mid..mid + Size(fs[n])] == Written(fs[n], vs[n])
  {
    hide Fits, Written, Size;
    var n := |fs| - 1;
    var head, tail := AllWritten(fs[..n], vs[..n]), Written(fs[n], vs[n]);
    assert AllWritten(fs, vs) == head + tail && TotalSize(fs) == |head| + |tail|;
    hide *;
    Slices(b, at, head, tail);
  }

  lemma Slices(b: Bytes, at: nat, head: Bytes, tail: Bytes)
    requires at + |head| + |tail| <= |b| && b[at..at + |head| + |tail|] == head + tail
    ensures b[at..at + |head|] == head && b[at + |head|..at + |head| + |tail|] == tail
  {
    var whole := b[at..at + |head| + |tail|];
    assert b[at..at + |head|] == whole[..|head|] && b[at + |head|..at + |head| + |tail|] == whole[|head|..];
  }

  /** Where everything is there, reading leniently is reading. */
  lemma {:induction false} LenientWhole(b: Bytes, at: nat, fs: seq<Field>)
    requires at + TotalSize(fs) <= |b|
    ensures ReadAll(b, at, fs) == Some(ReadLenient(b, at, fs).0) && ReadLenient(b, at, fs).1 == at + TotalSize(fs)
  {
    hide Meaning, Size;
    if fs != [] {
      LenientWhole(b, at, fs[..|fs| - 1]);
    }
  }

  /** Everything there: read leniently, every field comes back canonical. */
  lemma LenientOfWhole(b: Bytes, at: nat, fs: seq<Field>, vs: seq<Value>)
    requires AllFit(fs, vs) && at + TotalSize(fs) <= |b| && b[at..at + TotalSize(fs)] == AllWritten(fs, vs)
    ensures ReadLenient(b, at, fs) == (AllCanonical(fs, vs), at + TotalSize(fs))
  {
    hide *;
    ReadAllWritten(b, at, fs, vs);
    LenientWhole(b, at, fs);
  }

  /** The first m fields written are the beginning of all of them written. */
  lemma {:induction false} TakeFields(fs: seq<Field>, vs: seq<Value>, m: nat)
    requires AllFit(fs, vs) && m <= |fs|
    ensures AllFit(fs[..m], vs[..m]) && AllWritten(fs[..m], vs[..m]) <= AllWritten(fs, vs)
    ensures TotalSize(fs[..m]) <= TotalSize(fs)
    decreases |fs|
  {
    hide Fits, Written;
    if m == |fs| {
      assert fs[..m] == fs && vs[..m] == vs;
    } else {
      var n := |fs| - 1;
      TakeFields(fs[..n], vs[..n], m);
      assert fs[..n][..m] == fs[..m] && vs[..n][..m] == vs[..m];
    }
  }

  // ---------------------------------------------------------------- a run cut short

  /** The values of a run cut after its first m fields: those canonical, the others zero. */
  function Completed(fs: seq<Field>, vs: seq<Value>, m: nat): seq<Value>
    requires AllFit(fs, vs)
  {
    seq(|fs|, i requires 0 <= i < |fs| => if i < m then Canonical(fs[i], vs[i]) else ZeroValue(fs[i]))
  }

  /** Once no field that is left to read fits, all of them are zero and the cursor stays. */
  lemma {:induction false} LenientStuck(b: Bytes, at: nat, fs: seq<Field>, m: nat)
    requires m <= |fs| && forall i :: m <= i < |fs| ==> ReadLenient(b, at, fs[..m]).1 + Size(fs[i]) > |b|
    ensures var (vs, now) := ReadLenient(b, at, fs);
            now == ReadLenient(b, at, fs[..m]).1 && vs[..m] == ReadLenient(b, at, fs[..m]).0 &&
            forall i :: m <= i < |fs| ==> vs[i] == ZeroValue(fs[i])
    decreases |fs|
  {
    hide Meaning, Size, ZeroValue;
    if m == |fs| {
      assert fs[..m] == fs;
    } else {
      var init := fs[..|fs| - 1];
      assert init[..m] == fs[..m];
      LenientStuck(b, at, init, m);
    }
  }

  lemma {:induction false} LenientWithin(b: Bytes, at: nat, fs: seq<Field>)
    requires at <= |b|
    ensures ReadLenient(b, at, fs).1 <= |b|
  {
    hide Meaning, Size, ZeroValue;
    if fs != [] {
      LenientWithin(b, at, fs[..|fs| - 1]);
    }
  }

  /** What is read of the first fields is the beginning of what is read of all. */
  lemma {:induction false} LenientPrefix(b: Bytes, at: nat, fs: seq<Field>, m: nat)
    requires m <= |fs|
    ensures ReadLenient(b, at, fs).0[..m] == ReadLenient(b, at, fs[..m]).0
    decreases |fs|
  {
    hide Meaning, Size, ZeroValue;
    if m == |fs| {
      assert fs[..m] == fs;
    } else {
      assert fs[..|fs| - 1][..m] == fs[..m];
      LenientPrefix(b, at, fs[..|fs| - 1], m);
    }
  }

  /** b is what is left of the written run when it is cut left bytes into field m. */
  ghost predicate CutAt(b: Bytes, at: nat, fs: seq<Field>, vs: seq<Value>, m: nat, left: nat)
  {
    AllFit(fs, vs) && m <= |fs| && (if m < |fs| then left < Size(fs[m]) else left == 0) &&
    |b| == at + TotalSize(fs[..m]) + left && at + TotalSize(fs[..m]) + left <= at + TotalSize(fs) &&
    b[at..] == AllWritten(fs, vs)[..TotalSize(fs[..m]) + left]
  }

  lemma CutHead(b: Bytes, at: nat, fs: seq<Field>, vs: seq<Value>, m: nat, left: nat)
    requires CutAt(b, at, fs, vs, m, left)
    ensures var mid := at + TotalSize(fs[..m]);
            AllFit(fs[..m], vs[..m]) && mid <= |b| && b[at..mid] == AllWritten(fs[..m], vs[..m]) &&
            ReadLenient(b, at, fs[..m]) == (AllCanonical(fs[..m], vs[..m]), mid)
  {
    hide Fits, AllWritten, TotalSize, Size, ReadLenient, AllCanonical;
    TakeFields(fs, vs, m);
    var mid, whole := at + TotalSize(fs[..m]), AllWritten(fs, vs);
    assert b[at..mid] == b[at..][..mid - at] == whole[..mid - at];
    LenientOfWhole(b, at, fs[..m], vs[..m]);
  }

  /** What is left of a cut field is no trouble when no later field is small enough for it. */
  lemma CutCompletes(b: Bytes, at: nat, fs: seq<Field>, vs: seq<Value>, m: nat, left: nat)
    requires CutAt(b, at, fs, vs, m, left) && forall i :: m < i < |fs| ==> Size(fs[i]) > left
    ensures ReadLenient(b, at, fs) == (Completed(fs, vs, m), at + TotalSize(fs[..m]))
  {
    CutHead(b, at, fs, vs, m, left);
    LenientStuck(b, at, fs, m);
    hide Canonical, Fits, Size, TotalSize, ZeroValue, AllWritten, ReadLenient;
    var got := ReadLenient(b, at, fs).0;
    assert forall i :: 0 <= i < m ==> got[i] == got[..m][i];
    assert got == Completed(fs, vs, m);
  }

  /** How many of the fields lie wholly within the first n bytes. */
  function WholeFields(fs: seq<Field>, n: nat): (m: nat)
    ensures m <= |fs| && TotalSize(fs[..m]) <= n && (m < |fs| ==> n < TotalSize(fs[..m]) + Size(fs[m]))
  {
    if TotalSize(fs) <= n then assert fs[..|fs|] == fs; |fs|
    else
      var init := fs[..|fs| - 1];
      var m := WholeFields(init, n);
      assert init[..m] == fs[..m] && (m < |init| ==> init[m] == fs[m]);
      m
  }

  lemma NextField(fs: seq<Field>, i: nat)
    requires i < |fs|
    ensures fs[..i + 1][..i] == fs[..i] && fs[..i + 1][i] == fs[i] && TotalSize(fs[..i + 1]) == TotalSize(fs[..i]) + Size(fs[i])
  {
    assert fs[..i + 1][..i] == fs[..i];
  }

  /** The first bytes of a written run are its first field's. */
  lemma FirstWritten(fs: seq<Field>, vs: seq<Value>)
    requires AllFit(fs, vs) && fs != []
    ensures Written(fs[0], vs[0]) <= AllWritten(fs, vs)
  {
    TakeFields(fs, vs, 1);
    assert fs[..1] == [fs[0]] && vs[..1] == [vs[0]];
    assert AllWritten([fs[0]][..0], [vs[0]][..0]) == [];
    assert AllWritten([fs[0]], [vs[0]]) == [] + Written(fs[0], vs[0]);
  }

  /** Two bytes of a four-byte field, cut off there, are taken by the two one-byte fields behind it. */
  lemma TwoBytesTaken(b: Bytes, at: nat, fs: seq<Field>)
    requires |fs| >= 3 && fs[0] == Raw(4) && fs[1] == U8 && fs[2] == U8 && (forall i :: 0 <= i < |fs| ==> Size(fs[i]) > 0) && |b| == at + 2
    ensures var got := ReadLenient(b, at, fs).0;
            got[0] == ZeroValue(fs[0]) && got[1] == Num(b[at]) && got[2] == Num(b[at + 1]) && forall i :: 3 <= i < |fs| ==> got[i] == ZeroValue(fs[i])
  {
    hide Size, ZeroValue;
    NextField(fs, 0);
    NextField(fs, 1);
    NextField(fs, 2);
    SizesHere();
    assert fs[..0] == [];
    assert ReadLenient(b, at, fs[..0]).1 == at && ReadLenient(b, at, fs[..1]).1 == at;
    assert ReadLenient(b, at, fs[..2]).1 == at + 1 && ReadLenient(b, at, fs[..2]).0[1] == Num(b[at]);
    assert ReadLenient(b, at, fs[..3]).1 == at + 2 && ReadLenient(b, at, fs[..3]).0[2] == Num(b[at + 1]);
    LenientStuck(b, at, fs, 3);
    var got := ReadLenient(b, at, fs).0;
    assert got[0] == got[..3][0] && got[1] == got[..3][1] && got[2] == got[..3][2];
  }

  lemma SizesHere()
    ensures Size(Raw(4)) == 4 && Size(U8) == 1
  {}

  // ---------------------------------------------------------------- contents that are not zero

  /** The value of a field all of whose bytes are 0xFF. */
  function OnesOf(f: Field): (v: Value)
    ensures Fits(f, v)
  {
    match f
    case U8 => Num(0xFF)
    case U16BE => Num(0xFFFF)
    case U16LE => Num(0xFFFF)
    case Raw(n) => Data(seq(n, i => 0xFF))
    case Text(n) => Data(seq(n, i => 0xFF))
    case Gap(n) => Nothing
  }

  function Ones(fs: seq<Field>): seq<Value>
  {
    seq(|fs|, i requires 0 <= i < |fs| => OnesOf(fs[i]))
  }

  ghost predicate NoGap(fs: seq<Field>)
  {
    forall i :: 0 <= i < |fs| ==> !fs[i].Gap? && Size(fs[i]) > 0
  }

  ghost predicate AllOnes(b: Bytes)
  {
    forall i :: 0 <= i < |b| ==> b[i] == 0xFF
  }

  lemma {:induction false} OnesWritten(fs: seq<Field>)
    requires NoGap(fs)
    ensures AllFit(fs, Ones(fs)) && AllOnes(AllWritten(fs, Ones(fs)))
  {
    if fs != [] {
      var n := |fs| - 1;
      assert Ones(fs)[..n] == Ones(fs[..n]);
      OnesWritten(fs[..n]);
      OneWritten(fs[n]);
      hide OnesOf, Written;
    }
  }

  lemma OneWritten(f: Field)
    requires !f.Gap?
    ensures AllOnes(Written(f, OnesOf(f)))
  {}

  lemma OnesNotZero(f: Field, b: Bytes)
    requires !f.Gap? && Size(f) > 0 && |b| == Size(f) && AllOnes(b)
    ensures Meaning(f, b) != ZeroValue(f)
  {
    match f
    case Text(n) => assert CutAtZero(b)[0] == 0xFF && CutAtZero(Zeros(n)) == [];
    case Raw(n) => assert b[0] != Zeros(n)[0];
    case _ =>
  }

  /** What is left of a cut field is taken by the first later field that is small enough for it. */
  lemma CutTaken(b: Bytes, at: nat, fs: seq<Field>, m: nat, left: nat, k: nat)
    requires CutAt(b, at, fs, Ones(fs), m, left) && NoGap(fs)
    requires m < k < |fs| && Size(fs[k]) <= left && forall i :: m < i < k ==> Size(fs[i]) > left
    ensures AllFit(fs, Ones(fs)) && ReadLenient(b, at, fs).0 != Completed(fs, Ones(fs), m)
  {
    hide AllWritten, Ones, CutAt, AllFit, TotalSize, Size, ReadLenient, Completed, Meaning, ZeroValue, AllOnes, AllCanonical;
    CutHead(b, at, fs, Ones(fs), m, left);
    CutOnes(b, at, fs, m, left);
    CutBounds(b, at, fs, Ones(fs), m, left);
    TakenAt(b, at, fs, m, k);
    var now := at + TotalSize(fs[..m]);
    OnesSlice(b, at, now, Size(fs[k]));
    OnesNotZero(fs[k], b[now..now + Size(fs[k])]);
    CompletedAt(fs, Ones(fs), m, k);
  }

  lemma CutBounds(b: Bytes, at: nat, fs: seq<Field>, vs: seq<Value>, m: nat, left: nat)
    requires CutAt(b, at, fs, vs, m, left) && m < |fs|
    ensures AllFit(fs, vs) && |b| == at + TotalSize(fs[..m]) + left && Size(fs[m]) > left
  {}

  lemma OnesSlice(b: Bytes, at: nat, now: nat, n: nat)
    requires at <= now && now + n <= |b| && forall i :: at <= i < |b| ==> b[i] == 0xFF
    ensures AllOnes(b[now..now + n])
  {}

  lemma CompletedAt(fs: seq<Field>, vs: seq<Value>, m: nat, k: nat)
    requires AllFit(fs, vs) && m <= k < |fs|
    ensures |Completed(fs, vs, m)| == |fs| && Completed(fs, vs, m)[k] == ZeroValue(fs[k])
  {
    hide Fits;
  }

  lemma CutOnes(b: Bytes, at: nat, fs: seq<Field>, m: nat, left: nat)
    requires CutAt(b, at, fs, Ones(fs), m, left) && NoGap(fs)
    ensures forall i :: at <= i < |b| ==> b[i] == 0xFF
  {
    OnesWritten(fs);
    hide AllWritten, Ones;
    forall i | at <= i < |b| ensures b[i] == 0xFF {
      assert b[i] == b[at..][i - at];
    }
  }

  lemma TakenAt(b: Bytes, at: nat, fs: seq<Field>, m: nat, k: nat)
    requires m < k < |fs| && forall i :: m <= i < k ==> ReadLenient(b, at, fs[..m]).1 + Size(fs[i]) > |b|
    requires ReadLenient(b, at, fs[..m]).1 + Size(fs[k]) <= |b|
    ensures var now := ReadLenient(b, at, fs[..m]).1;
            ReadLenient(b, at, fs).0[k] == Meaning(fs[k], b[now..now + Size(fs[k])])
  {
    hide Size, ZeroValue, Meaning;
    assert fs[..k][..m] == fs[..m];
    LenientStuck(b, at, fs[..k], m);
    assert fs[..k + 1][..k] == fs[..k];
    LenientPrefix(b, at, fs, k + 1);
    assert ReadLenient(b, at, fs).0[..k + 1][k] == ReadLenient(b, at, fs).0[k];
  }

  lemma FirstSmall(fs: seq<Field>, m: nat, left: nat, n: nat) returns (k: nat)
    requires m < n < |fs| && Size(fs[n]) <= left
    ensures m < k < |fs| && Size(fs[k]) <= left && forall i :: m < i < k ==> Size(fs[i]) > left
  {
    k := m + 1;
    while Size(fs[k]) > left
      invariant m < k <= n && forall i :: m < i < k ==> Size(fs[i]) > left
      decreases n - k
    {
      k := k + 1;
    }
  }

  /** A run cut left bytes into field m reads as its zero-filled completion whatever it says, exactly when
      every later field is larger than what is left. */
  lemma CutExactly(fs: seq<Field>, m: nat, left: nat)
    requires NoGap(fs) && m <= |fs| && (if m < |fs| then left < Size(fs[m]) else left == 0)
    ensures (forall b, at, vs :: CutAt(b, at, fs, vs, m, left) ==> ReadLenient(b, at, fs).0 == Completed(fs, vs, m)) <==>
              forall i :: m < i < |fs| ==> Size(fs[i]) > left
  {
    if forall i :: m < i < |fs| ==> Size(fs[i]) > left {
      forall b, at, vs | CutAt(b, at, fs, vs, m, left) ensures ReadLenient(b, at, fs).0 == Completed(fs, vs, m) {
        CutCompletes(b, at, fs, vs, m, left);
      }
    } else {
      var n :| m < n < |fs| && Size(fs[n]) <= left;
      var k := FirstSmall(fs, m, left, n);
      OnesWritten(fs);
      CutRoom(fs, m, left);
      var b := AllWritten(fs, Ones(fs))[..TotalSize(fs[..m]) + left];
      assert CutAt(b, 0, fs, Ones(fs), m, left);
      CutTaken(b, 0, fs, m, left, k);
    }
  }

  /** A field begins where those before it end. */
  lemma {:induction false} CutRoom(fs: seq<Field>, m: nat, left: nat)
    requires m <= |fs| && (if m < |fs| then left <= Size(fs[m]) else left == 0)
    ensures TotalSize(fs[..m]) + left <= TotalSize(fs)
    decreases |fs|
  {
    if m == |fs| {
      assert fs[..m] == fs;
    } else {
      var init := fs[..|fs| - 1];
      assert init[..m] == fs[..m];
      if m < |init| {
        assert init[m] == fs[m];
        CutRoom(init, m, left);
      } else {
        assert fs[..m] == init;
      }
    }
  }

  method ReadFields(r: Reader, fs: seq<Field>) returns (vs: Option<seq<Value>>)
    modifies r
    ensures vs == ReadAll(r.bytes, old(r.offset), fs) && (vs.Some? ==> r.offset == old(r.offset) + TotalSize(fs))
  {
    var got: seq<Value> := [];
    ghost var at := r.offset;
    for i := 0 to |fs|
      invariant ReadAll(r.bytes, at, fs[..i]) == Some(got) && r.offset == at + TotalSize(fs[..i])
    {
      hide Size, Meaning;
      assert fs[..i + 1][..i] == fs[..i];
      var v := r.ReadField(fs[i]);
      if v.None? {
        NoneStays(r.bytes, at, fs, i + 1);
        return None;
      }
      got := got + [v.value];
    }
    assert fs[..|fs|] == fs;
    return Some(got);
  }

  lemma {:induction false} NoneStays(b: Bytes, at: nat, fs: seq<Field>, n: nat)
    requires n <= |fs| && ReadAll(b, at, fs[..n]).None?
    ensures ReadAll(b, at, fs).None?
    decreases |fs| - n
  {
    hide Size, Meaning;
    if n < |fs| {
      assert fs[..n + 1][..n] == fs[..n];
      NoneStays(b, at, fs, n + 1);
    } else {
      assert fs[..n] == fs;
    }
  }

  method ReadFieldsOrZero(r: Reader, fs: seq<Field>) returns (vs: seq<Value>)
    modifies r
    ensures (vs, r.offset) == ReadLenient(r.bytes, old(r.offset), fs)
  {
    vs := [];
    ghost var at := r.offset;
    for i := 0 to |fs|
      invariant (vs, r.offset) == ReadLenient(r.bytes, at, fs[..i])
    {
      hide Size, Meaning;
      assert fs[..i + 1][..i] == fs[..i];
      var v := r.ReadField(fs[i]);
      vs := vs + [if v.Some? then v.value else ZeroValue(fs[i])];
    }
    assert fs[..|fs|] == fs;
  }

  method WriteFields(w: Writer, fs: seq<Field>, vs: seq<Value>)
    requires AllFit(fs, vs)
    modifies w
    ensures w.bytes == old(w.bytes) + AllWritten(fs, vs)
  {
    for i := 0 to |fs|
      invariant AllFit(fs[..i], vs[..i]) && w.bytes == old(w.bytes) + AllWritten(fs[..i], vs[..i])
    {
      hide Fits, Written;
      assert fs[..i + 1][..i] == fs[..i] && vs[..i + 1][..i] == vs[..i];
      w.WriteField(fs[i], vs[i]);
    }
    assert fs[..|fs|] == fs && vs[..|fs|] == vs;
  }
}
