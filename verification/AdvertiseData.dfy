/**
 ProcessAdvertiseData (service/low_energy_client.cpp): turns advertising data into the one manufacturer
 field, one service data field and one service UUID that the HAL accepts.
 */
module AdvertiseData {
  import opened Common
  import opened Tlv

  /** HALAdvertiseData; an empty vector means "not set". */
  datatype Hal = Hal(manufacturer: seq<Byte>, serviceData: seq<Byte>, serviceUuid: seq<Byte>)

  const NOTHING := Hal([], [], [])

  const MANUFACTURER: Byte := 0xFF

  // ---------------------------------------------------------------------------------------------
  // UUIDs

  /** The Bluetooth Base UUID, most significant octet first. */
  const BASE_UUID: seq<Byte> := [0x00, 0x00, 0x00, 0x00, 0x00, 0x00, 0x10, 0x00,
                                 0x80, 0x00, 0x00, 0x80, 0x5f, 0x9b, 0x34, 0xfb]

  /** The same, least significant octet first, without the four octets a short UUID replaces. */
  const BASE_TAIL: seq<Byte> := [0xfb, 0x34, 0x9b, 0x5f, 0x80, 0x00, 0x00, 0x80, 0x00, 0x10, 0x00, 0x00]

  /** A 16, 32 or 128 bit UUID as a 128 bit UUID, both least significant octet first
      (section 2.5.1 of the Core Specification, Volume 3, Part B). */
  function Widen(u: seq<Byte>): (r: Option<seq<Byte>>)
    ensures r.Some? <==> |u| in {2, 4, 16}
    ensures r.Some? ==> |r.value| == 16
  {
    if |u| == 2 then Some(BASE_TAIL + u + [0, 0])
    else if |u| == 4 then Some(BASE_TAIL + u)
    else if |u| == 16 then Some(u)
    else None
  }

  function Reverse(s: seq<Byte>): (r: seq<Byte>)
    ensures |r| == |s| && forall i :: 0 <= i < |s| ==> r[i] == s[|s| - 1 - i]
  {
    seq(|s|, i requires 0 <= i < |s| => s[|s| - 1 - i])
  }

  /** ProcessUUID followed by GetFullLittleEndian: the octets are reversed into the big-endian base UUID
      and the whole is reversed back. */
  method ProcessUuid(uuidData: seq<Byte>) returns (r: Option<seq<Byte>>)
    ensures r == Widen(uuidData)
  {
    if |uuidData| != 2 && |uuidData| != 4 && |uuidData| != 16 { return None; }
    var uuidBytes := new Byte[|uuidData|](_ => 0);
    for i := 0 to |uuidData|
      invariant forall k :: 0 <= k < i ==> uuidBytes[|uuidData| - 1 - k] == uuidData[k]
    {
      uuidBytes[|uuidData| - i - 1] := uuidData[i];
    }
    assert uuidBytes[..] == Reverse(uuidData);
    var id := Overlay(uuidBytes[..]);
    r := Some(Reverse(id));
    WidenReversed(uuidData);
  }

  /** The UUID constructors: a short UUID is copied over octets 2-3 or 0-3 of the base UUID. */
  function Overlay(be: seq<Byte>): (r: seq<Byte>)
    requires |be| in {2, 4, 16}
    ensures |r| == 16
  {
    if |be| == 2 then BASE_UUID[..2] + be + BASE_UUID[4..]
    else if |be| == 4 then be + BASE_UUID[4..]
    else be
  }

  lemma WidenReversed(u: seq<Byte>)
    requires |u| in {2, 4, 16}
    ensures Widen(u) == Some(Reverse(Overlay(Reverse(u))))
  {
    assert Reverse(Overlay(Reverse(u))) == Widen(u).value;
  }

  // ---------------------------------------------------------------------------------------------
  // Field by field specification

  predicate IsUuidKind(kind: Byte) { 0x02 <= kind <= 0x07 }

  /** Size of the UUID that starts a service data field. */
  function ServiceUuidLen(kind: Byte): Option<nat> {
    if kind == 0x16 then Some(2) else if kind == 0x20 then Some(4) else if kind == 0x21 then Some(16) else None
  }

  predicate IsManufacturer(f: Field) { f.kind == MANUFACTURER }

  predicate IsService(f: Field) { ServiceUuidLen(f.kind).Some? }

  predicate HasUuid(f: Field) { IsUuidKind(f.kind) || IsService(f) }

  /** A known type and a legal length. The UUID types take any of the three UUID sizes. */
  predicate Legal(f: Field) {
    if IsManufacturer(f) then true
    else if IsUuidKind(f.kind) then |f.value| in {2, 4, 16}
    else match ServiceUuidLen(f.kind)
      case Some(n) => |f.value| >= n
      case None => false
  }

  function UuidOf(f: Field): (r: seq<Byte>)
    requires Legal(f) && HasUuid(f)
    ensures |r| == 16
  {
    if IsUuidKind(f.kind) then Widen(f.value).value else Widen(f.value[..ServiceUuidLen(f.kind).value]).value
  }

  function Payload(f: Field): seq<Byte>
    requires Legal(f) && IsService(f)
  {
    f.value[ServiceUuidLen(f.kind).value..]
  }

  function Take(h: Hal, f: Field): Option<Hal> {
    if !Legal(f) then None
    else if IsManufacturer(f) then if h.manufacturer != [] then None else Some(h.(manufacturer := f.value))
    else if IsService(f) && h.serviceData != [] then None
    else if h.serviceUuid != [] && h.serviceUuid != UuidOf(f) then None
    else Some(h.(serviceUuid := UuidOf(f), serviceData := if IsService(f) then Payload(f) else h.serviceData))
  }

  function TakeAll(fs: seq<Field>): Option<Hal> {
    if fs == [] then Some(NOTHING) else Bind(TakeAll(fs[..|fs|-1]), fs[|fs|-1])
  }

  function Bind(h: Option<Hal>, f: Field): Option<Hal> {
    match h
    case None => None
    case Some(h) => Take(h, f)
  }

  lemma TakeAllSnoc(fs: seq<Field>, f: Field)
    ensures TakeAll(fs + [f]) == Bind(TakeAll(fs), f)
  {
    assert (fs + [f])[..|fs|] == fs;
  }

  lemma {:induction false} TakeAllPrefix(fs: seq<Field>, n: nat)
    requires n <= |fs| && TakeAll(fs).Some?
    ensures TakeAll(fs[..n]).Some?
  {
    if n == |fs| {
      assert fs[..n] == fs;
    } else {
      assert fs[..|fs|-1][..n] == fs[..n];
      TakeAllPrefix(fs[..|fs|-1], n);
    }
  }

  // ---------------------------------------------------------------------------------------------
  // The byte walkers

  /** ProcessServiceData on one field. */
  method ProcessServiceData(f: seq<Byte>, uuidLen: nat, h: Hal) returns (r: Option<Hal>)
    requires |f| >= 2 && f[0] as int + 1 == |f|
    requires ServiceUuidLen(f[1]) == Some(uuidLen)
    ensures r == Take(h, Field(f[1], f[2..]))
  {
    var fieldLen := f[0];
    if fieldLen < uuidLen + 1 { return None; }
    if h.serviceData != [] { return None; }
    ghost var value := f[2..];
    assert f[2..2 + uuidLen] == value[..uuidLen] && f[uuidLen + 2..] == value[uuidLen..];
    var uuid := ProcessUuid(f[2..2 + uuidLen]);
    if uuid.None? { return None; }
    if h.serviceUuid != [] && h.serviceUuid != uuid.value { return None; }
    r := Some(h.(serviceUuid := uuid.value, serviceData := f[uuidLen + 2..]));
  }

  /** The body of the switch for one field. */
  method ProcessField(f: seq<Byte>, h: Hal) returns (r: Option<Hal>)
    requires |f| >= 2 && f[0] as int + 1 == |f|
    ensures r == Take(h, Field(f[1], f[2..]))
  {
    var kind := f[1];
    if kind == MANUFACTURER {
      if h.manufacturer != [] { return None; }
      r := Some(h.(manufacturer := f[2..]));
    } else if kind == 0x02 || kind == 0x03 || kind == 0x04 || kind == 0x05 || kind == 0x06 || kind == 0x07 {
      var uuid := ProcessUuid(f[2..]);
      if uuid.None? { return None; }
      if h.serviceUuid != [] && h.serviceUuid != uuid.value { return None; }
      r := Some(h.(serviceUuid := uuid.value));
    } else if kind == 0x16 {
      r := ProcessServiceData(f, 2, h);
    } else if kind == 0x20 {
      r := ProcessServiceData(f, 4, h);
    } else if kind == 0x21 {
      r := ProcessServiceData(f, 16, h);
    } else {
      r := None;
    }
  }

  /** The first i bytes hold the fields fs, which so far give h. */
  ghost predicate Walked(d: seq<Byte>, i: nat, fs: seq<Field>, h: Hal) {
    i <= |d| && Parse(d[..i]) == Some(fs) && TakeAll(fs) == Some(h)
  }

  lemma Fits(d: seq<Byte>, i: nat)
    requires i < |d| && Parse(d).Some? && Parse(d[..i]).Some?
    ensures d[i] >= 1 && i + 1 + d[i] as int <= |d|
  {
    if d[i] == 0 || i + d[i] >= |d| { ParseBad(d, i); }
  }

  /** A rejected prefix rejects the whole. */
  lemma Rest(d: seq<Byte>, i: nat, gs: seq<Field>)
    requires i <= |d| && Parse(d).Some? && Parse(d[..i]) == Some(gs) && TakeAll(gs).None?
    ensures TakeAll(Parse(d).value).None?
  {
    assert d[..i] + d[i..] == d;
    ParseAppend(d[..i], d[i..]);
    var fs := Parse(d).value;
    assert fs[..|gs|] == gs;
    if TakeAll(fs).Some? { TakeAllPrefix(fs, |gs|); }
  }

  lemma Extend(d: seq<Byte>, j: nat, fs: seq<Field>, f: Field, t: Option<Hal>)
    requires j <= |d| && Parse(d).Some?
    requires Parse(d[..j]) == Some(fs + [f])
    requires t == Bind(TakeAll(fs), f)
    ensures t.Some? ==> Walked(d, j, fs + [f], t.value)
    ensures t.None? ==> TakeAll(Parse(d).value).None?
  {
    TakeAllSnoc(fs, f);
    if t.None? { Rest(d, j, fs + [f]); }
  }

  /** The caller has checked the data with IsValid, so every length octet is good. */
  method ProcessAdvertiseData(d: seq<Byte>) returns (r: Option<Hal>)
    requires Parse(d).Some?
    ensures r == TakeAll(Parse(d).value)
  {
    var h := NOTHING;
    var i := 0;
    ghost var fs: seq<Field> := [];
    while i < |d|
      invariant 0 <= i <= |d| && Walked(d, i, fs, h)
      decreases |d| - i
    {
      Fits(d, i);
      var n := d[i] as int;
      var t := ProcessFieldAt(d, i, n, h);
      ghost var f := Field(d[i+1], d[i+2..i+1+n]);
      ParseOneMore(d, i, n);
      i := i + 1 + n;
      Extend(d, i, fs, f, t);
      if t.None? { return None; }
      h := t.value;
      fs := fs + [f];
    }
    assert d[..i] == d;
    r := Some(h);
  }

  method ProcessFieldAt(d: seq<Byte>, i: nat, n: nat, h: Hal) returns (r: Option<Hal>)
    requires i + 1 + n <= |d| && n >= 1 && d[i] == n
    ensures r == Take(h, Field(d[i+1], d[i+2..i+1+n]))
  {
    var f := d[i..i + 1 + n];
    assert f[2..] == d[i + 2..i + 1 + n];
    r := ProcessField(f, h);
  }

  // ---------------------------------------------------------------------------------------------
  // What is accepted, and with what result

  /** The three things the HAL takes. */
  datatype Slot = ManufacturerSlot | ServiceSlot | UuidSlot

  function Content(slot: Slot, f: Field): Option<seq<Byte>> {
    if !Legal(f) then None
    else match slot
      case ManufacturerSlot => if IsManufacturer(f) then Some(f.value) else None
      case ServiceSlot => if IsService(f) then Some(Payload(f)) else None
      case UuidSlot => if HasUuid(f) then Some(UuidOf(f)) else None
  }

  predicate AllLegal(fs: seq<Field>) { forall f :: f in fs ==> Legal(f) }

  /** Only the last field for the slot may carry anything. */
  predicate SlotFree(slot: Slot, fs: seq<Field>) {
    forall i, j :: 0 <= i < j < |fs| && Content(slot, fs[i]).Some? && Content(slot, fs[j]).Some? ==>
      Content(slot, fs[i]).value == []
  }

  predicate OneUuid(fs: seq<Field>) {
    forall f, g :: f in fs && g in fs && Content(UuidSlot, f).Some? && Content(UuidSlot, g).Some? ==>
      Content(UuidSlot, f) == Content(UuidSlot, g)
  }

  predicate Accepted(fs: seq<Field>) {
    AllLegal(fs) && SlotFree(ManufacturerSlot, fs) && SlotFree(ServiceSlot, fs) && OneUuid(fs)
  }

  /** Content of the last field for the slot; empty when there is none. */
  function Held(slot: Slot, fs: seq<Field>): seq<Byte> {
    if fs == [] then []
    else match Content(slot, fs[|fs|-1])
      case Some(c) => c
      case None => Held(slot, fs[..|fs|-1])
  }

  lemma HeldSnoc(slot: Slot, fs: seq<Field>, f: Field)
    ensures Held(slot, fs + [f]) == match Content(slot, f) case Some(c) => c case None => Held(slot, fs)
  {
    assert (fs + [f])[..|fs|] == fs;
  }

  /** Something is held exactly when some field carries something, if only the last may. */
  lemma {:induction false} HeldNonEmpty(slot: Slot, fs: seq<Field>)
    requires SlotFree(slot, fs)
    ensures Held(slot, fs) != [] <==> exists f :: f in fs && Content(slot, f).Some? && Content(slot, f).value != []
    ensures forall f :: f in fs && Content(slot, f).Some? && Content(slot, f).value != [] ==>
              Held(slot, fs) == Content(slot, f).value
  {
    if fs != [] {
      var init := fs[..|fs|-1];
      HeldNonEmpty(slot, init);
      assert forall f :: f in fs <==> f in init || f == fs[|fs|-1];
      assert fs[|fs|-1] in fs;
    }
  }

  lemma SlotFreeSnoc(slot: Slot, fs: seq<Field>, f: Field)
    requires SlotFree(slot, fs)
    ensures SlotFree(slot, fs + [f]) <==> Content(slot, f).None? || Held(slot, fs) == []
  {
    HeldNonEmpty(slot, fs);
    var gs := fs + [f];
    assert gs[|fs|] == f;
    if Content(slot, f).Some? && Held(slot, fs) != [] {
      var g :| g in fs && Content(slot, g).Some? && Content(slot, g).value != [];
      var i :| 0 <= i < |fs| && fs[i] == g;
      assert gs[i] == g;
    } else {
      forall i, j | 0 <= i < j < |gs| && Content(slot, gs[i]).Some? && Content(slot, gs[j]).Some?
        ensures Content(slot, gs[i]).value == []
      {
        assert gs[i] == fs[i] && fs[i] in fs;
      }
    }
  }

  lemma SlotFreeInit(slot: Slot, fs: seq<Field>, f: Field)
    requires SlotFree(slot, fs + [f])
    ensures SlotFree(slot, fs)
  {
    forall i, j | 0 <= i < j < |fs| && Content(slot, fs[i]).Some? && Content(slot, fs[j]).Some?
      ensures Content(slot, fs[i]).value == []
    {
      assert (fs + [f])[i] == fs[i] && (fs + [f])[j] == fs[j];
    }
  }

  lemma {:induction false} HeldUuid(fs: seq<Field>)
    requires OneUuid(fs)
    ensures Held(UuidSlot, fs) != [] <==> exists f :: f in fs && Content(UuidSlot, f).Some?
    ensures forall f :: f in fs && Content(UuidSlot, f).Some? ==> Content(UuidSlot, f).value == Held(UuidSlot, fs)
  {
    if fs != [] {
      var init, last := fs[..|fs|-1], fs[|fs|-1];
      HeldUuid(init);
      assert forall f :: f in fs <==> f in init || f == last;
      assert last in fs;
    }
  }

  lemma OneUuidSnoc(fs: seq<Field>, f: Field)
    requires OneUuid(fs)
    ensures OneUuid(fs + [f]) <==>
              Content(UuidSlot, f).None? || Held(UuidSlot, fs) == [] || Held(UuidSlot, fs) == Content(UuidSlot, f).value
  {
    HeldUuid(fs);
    assert forall g :: g in fs + [f] <==> g in fs || g == f;
  }

  function Outcome(fs: seq<Field>): Hal {
    Hal(Held(ManufacturerSlot, fs), Held(ServiceSlot, fs), Held(UuidSlot, fs))
  }

  lemma AcceptedInit(fs: seq<Field>, f: Field)
    requires Accepted(fs + [f])
    ensures Accepted(fs) && Legal(f)
  {
    var gs := fs + [f];
    assert forall g :: g in gs <==> g in fs || g == f;
    SlotFreeInit(ManufacturerSlot, fs, f);
    SlotFreeInit(ServiceSlot, fs, f);
  }

  /** How one more field changes acceptance. */
  lemma AcceptedSnoc(fs: seq<Field>, f: Field)
    requires Accepted(fs) && Legal(f)
    ensures Accepted(fs + [f]) <==> Take(Outcome(fs), f).Some?
  {
    assert forall g :: g in fs + [f] <==> g in fs || g == f;
    SlotFreeSnoc(ManufacturerSlot, fs, f);
    SlotFreeSnoc(ServiceSlot, fs, f);
    OneUuidSnoc(fs, f);
  }

  lemma TakeOutcome(fs: seq<Field>, f: Field)
    requires Take(Outcome(fs), f).Some?
    ensures Take(Outcome(fs), f) == Some(Outcome(fs + [f]))
  {
    HeldSnoc(ManufacturerSlot, fs, f);
    HeldSnoc(ServiceSlot, fs, f);
    HeldSnoc(UuidSlot, fs, f);
  }

  /** The exact meaning of ProcessAdvertiseData on every well-formed input. */
  lemma {:induction false} ProcessExact(fs: seq<Field>)
    ensures TakeAll(fs) == if Accepted(fs) then Some(Outcome(fs)) else None
  {
    if fs != [] {
      var init, f := fs[..|fs|-1], fs[|fs|-1];
      assert fs == init + [f];
      ProcessExact(init);
      if Accepted(fs) { AcceptedInit(init, f); }
      if Accepted(init) && Legal(f) {
        AcceptedSnoc(init, f);
        if Accepted(fs) { TakeOutcome(init, f); }
      }
    }
  }

  // ---------------------------------------------------------------------------------------------
  // Order

  predicate Filled(slot: Slot, f: Field) { Content(slot, f).Some? && Content(slot, f).value != [] }

  /** The fields for a slot are all empty or all non-empty. */
  predicate Uniform(slot: Slot, fs: seq<Field>) {
    forall f, g :: f in fs && g in fs && Content(slot, f).Some? && Content(slot, g).Some? ==>
      (Filled(slot, f) <==> Filled(slot, g))
  }

  predicate Unmixed(fs: seq<Field>) { Uniform(ManufacturerSlot, fs) && Uniform(ServiceSlot, fs) }

  /** Order-free form of SlotFree: a field that carries something is the only one for its slot. */
  predicate Alone(slot: Slot, fields: multiset<Field>) {
    forall f, g :: f in fields && g in fields && Filled(slot, f) && Content(slot, g).Some? ==>
      f == g && fields[f] == 1
  }

  lemma {:induction false} Twice(fs: seq<Field>, f: Field) returns (i: nat, j: nat)
    requires multiset(fs)[f] >= 2
    ensures i < j < |fs| && fs[i] == f && fs[j] == f
  {
    var init, last := fs[..|fs|-1], fs[|fs|-1];
    assert fs == init + [last];
    if last == f {
      j := |init|;
      assert f in multiset(init);
      i :| 0 <= i < |init| && init[i] == f;
    } else {
      i, j := Twice(init, f);
    }
  }

  lemma TwiceCounts(fs: seq<Field>, i: nat, j: nat)
    requires i < j < |fs| && fs[i] == fs[j]
    ensures multiset(fs)[fs[i]] >= 2
  {
    assert fs == fs[..j] + fs[j..];
    assert fs[..j][i] in multiset(fs[..j]) && fs[j..][0] in multiset(fs[j..]);
  }

  lemma FreeIsAlone(slot: Slot, fs: seq<Field>, f: Field, g: Field)
    requires Uniform(slot, fs) && SlotFree(slot, fs)
    requires f in fs && g in fs && Filled(slot, f) && Content(slot, g).Some?
    ensures f == g && multiset(fs)[f] == 1
  {
    var i :| 0 <= i < |fs| && fs[i] == f;
    var j :| 0 <= j < |fs| && fs[j] == g;
    assert i == j;
    if multiset(fs)[f] >= 2 { var k, l := Twice(fs, f); }
  }

  lemma AloneIsFree(slot: Slot, fs: seq<Field>, i: nat, j: nat)
    requires Alone(slot, multiset(fs)) && i < j < |fs|
    requires Content(slot, fs[i]).Some? && Content(slot, fs[j]).Some?
    ensures Content(slot, fs[i]).value == []
  {
    assert fs[i] in multiset(fs) && fs[j] in multiset(fs);
    if fs[i] == fs[j] { TwiceCounts(fs, i, j); }
  }

  lemma SlotFreeAlone(slot: Slot, fs: seq<Field>)
    requires Uniform(slot, fs)
    ensures SlotFree(slot, fs) <==> Alone(slot, multiset(fs))
  {
    if SlotFree(slot, fs) {
      forall f, g | f in multiset(fs) && g in multiset(fs) && Filled(slot, f) && Content(slot, g).Some?
        ensures f == g && multiset(fs)[f] == 1
      {
        FreeIsAlone(slot, fs, f, g);
      }
    }
    if Alone(slot, multiset(fs)) {
      forall i, j | 0 <= i < j < |fs| && Content(slot, fs[i]).Some? && Content(slot, fs[j]).Some?
        ensures Content(slot, fs[i]).value == []
      {
        AloneIsFree(slot, fs, i, j);
      }
    }
  }

  lemma SameHeld(slot: Slot, fs: seq<Field>, gs: seq<Field>)
    requires SlotFree(slot, fs) && SlotFree(slot, gs) && multiset(fs) == multiset(gs)
    ensures Held(slot, fs) == Held(slot, gs)
  {
    SameMembers(fs, gs);
    HeldNonEmpty(slot, fs);
    HeldNonEmpty(slot, gs);
  }

  lemma SameMembers(fs: seq<Field>, gs: seq<Field>)
    requires multiset(fs) == multiset(gs)
    ensures forall f :: f in fs <==> f in gs
  {
    forall f ensures f in fs <==> f in gs {
      assert f in fs <==> f in multiset(fs);
      assert f in gs <==> f in multiset(gs);
    }
  }

  lemma AcceptedReordered(fs: seq<Field>, gs: seq<Field>)
    requires multiset(fs) == multiset(gs) && Unmixed(fs)
    ensures Unmixed(gs) && (Accepted(fs) <==> Accepted(gs))
  {
    SameMembers(fs, gs);
    SlotFreeAlone(ManufacturerSlot, fs);
    SlotFreeAlone(ManufacturerSlot, gs);
    SlotFreeAlone(ServiceSlot, fs);
    SlotFreeAlone(ServiceSlot, gs);
  }

  /** Unless empty and non-empty fields for one slot are mixed, neither acceptance nor the result
      depends on the order of the fields. */
  lemma OrderIrrelevant(fs: seq<Field>, gs: seq<Field>)
    requires multiset(fs) == multiset(gs) && Unmixed(fs)
    ensures TakeAll(fs) == TakeAll(gs)
  {
    AcceptedReordered(fs, gs);
    ProcessExact(fs);
    ProcessExact(gs);
    if Accepted(fs) {
      SameHeld(ManufacturerSlot, fs, gs);
      SameHeld(ServiceSlot, fs, gs);
      SameMembers(fs, gs);
      HeldUuid(fs);
      HeldUuid(gs);
    }
  }

  lemma SwapIsReordering(fs: seq<Field>, j: nat, i: nat)
    requires j < i < |fs|
    ensures multiset(fs[j := fs[i]][i := fs[j]]) == multiset(fs)
  {
  }

  lemma FilledFirst(slot: Slot, gs: seq<Field>, j: nat, i: nat)
    requires slot != UuidSlot && j < i < |gs| && Filled(slot, gs[j]) && Content(slot, gs[i]).Some?
    ensures TakeAll(gs).None?
  {
    ProcessExact(gs);
    assert !SlotFree(slot, gs);
  }

  /** If they are mixed, some order of an accepted list is rejected. */
  lemma MixedOrderMatters(slot: Slot, fs: seq<Field>) returns (gs: seq<Field>)
    requires slot != UuidSlot && TakeAll(fs).Some? && !Uniform(slot, fs)
    ensures multiset(gs) == multiset(fs) && TakeAll(gs).None?
  {
    var f, g :| && f in fs && g in fs && Content(slot, f).Some? && Content(slot, g).Some?
                && Filled(slot, f) && !Filled(slot, g);
    var i :| 0 <= i < |fs| && fs[i] == f;
    var j :| 0 <= j < |fs| && fs[j] == g;
    if i < j { FilledFirst(slot, fs, i, j); }
    gs := fs[j := f][i := g];
    SwapIsReordering(fs, j, i);
    FilledFirst(slot, gs, j, i);
  }

  /** Exactly the unmixed lists among the accepted ones may be reordered freely. */
  lemma OrderFreeExactly(fs: seq<Field>)
    requires TakeAll(fs).Some?
    ensures Unmixed(fs) <==> forall gs :: multiset(gs) == multiset(fs) ==> TakeAll(gs) == TakeAll(fs)
  {
    if Unmixed(fs) {
      forall gs | multiset(gs) == multiset(fs) ensures TakeAll(gs) == TakeAll(fs) {
        OrderIrrelevant(fs, gs);
      }
    } else if !Uniform(ManufacturerSlot, fs) {
      var gs := MixedOrderMatters(ManufacturerSlot, fs);
    } else {
      var gs := MixedOrderMatters(ServiceSlot, fs);
    }
  }

  /** The HAL data is exactly what the fields carry. */
  ghost predicate Carried(h: Hal, fs: seq<Field>) {
    && (forall f :: f in fs && Filled(ManufacturerSlot, f) ==> h.manufacturer == f.value)
    && (forall f :: f in fs && Filled(ServiceSlot, f) ==> h.serviceData == Payload(f))
    && (forall f :: f in fs && Legal(f) && HasUuid(f) ==> h.serviceUuid == UuidOf(f))
    && (h.manufacturer != [] ==> exists f :: f in fs && Filled(ManufacturerSlot, f))
    && (h.serviceData != [] ==> exists f :: f in fs && Filled(ServiceSlot, f))
    && (h.serviceUuid != [] ==> exists f :: f in fs && Legal(f) && HasUuid(f))
  }

  lemma HeldCarried(slot: Slot, fs: seq<Field>)
    requires SlotFree(slot, fs)
    ensures forall f :: f in fs && Filled(slot, f) ==> Held(slot, fs) == Content(slot, f).value
    ensures Held(slot, fs) != [] ==> exists f :: f in fs && Filled(slot, f)
  {
    HeldNonEmpty(slot, fs);
    if Held(slot, fs) != [] {
      var f :| f in fs && Content(slot, f).Some? && Content(slot, f).value != [];
      assert Filled(slot, f);
    }
  }

  lemma UuidCarried(fs: seq<Field>)
    requires OneUuid(fs)
    ensures forall f :: f in fs && Legal(f) && HasUuid(f) ==> Held(UuidSlot, fs) == UuidOf(f)
    ensures Held(UuidSlot, fs) != [] ==> exists f :: f in fs && Legal(f) && HasUuid(f)
  {
    HeldUuid(fs);
    if Held(UuidSlot, fs) != [] {
      var f :| f in fs && Content(UuidSlot, f).Some?;
      assert Legal(f) && HasUuid(f);
    }
  }

  lemma OutcomeCarried(fs: seq<Field>)
    requires Accepted(fs)
    ensures Carried(Outcome(fs), fs)
  {
    HeldCarried(ManufacturerSlot, fs);
    HeldCarried(ServiceSlot, fs);
    UuidCarried(fs);
  }

  /** Recovery: walking the bytes of an acceptable list of fields gives the HAL exactly what its fields
      carry, and nothing that no field carries. */
  lemma Recover(fs: seq<Field>)
    requires Encodable(fs) && Accepted(fs)
    ensures Parse(Encode(fs)).Some? && TakeAll(Parse(Encode(fs)).value).Some?
    ensures Carried(TakeAll(Parse(Encode(fs)).value).value, fs)
  {
    ParseEncode(fs);
    ProcessExact(fs);
    OutcomeCarried(fs);
  }

  /** What each type of field carries, octet by octet: manufacturer data as it is; a UUID list its one UUID; a
      service data field a UUID of two, four or sixteen octets and then its payload. */
  lemma FieldCarries(kind: Byte, a: seq<Byte>, b: seq<Byte>)
    requires |a| in {2, 4, 16}
    ensures Content(ManufacturerSlot, Field(0xFF, a + b)) == Some(a + b)
    ensures Content(UuidSlot, Field(0xFF, a + b)) == None && Content(ServiceSlot, Field(0xFF, a + b)) == None
    ensures kind in {0x02, 0x03, 0x04, 0x05, 0x06, 0x07} ==>
              && Content(UuidSlot, Field(kind, a)) == Widen(a)
              && Content(ManufacturerSlot, Field(kind, a)) == None && Content(ServiceSlot, Field(kind, a)) == None
    ensures (kind, |a|) in {(0x16, 2), (0x20, 4), (0x21, 16)} ==>
              && Content(ServiceSlot, Field(kind, a + b)) == Some(b)
              && Content(UuidSlot, Field(kind, a + b)) == Widen(a)
              && Content(ManufacturerSlot, Field(kind, a + b)) == None
  {
    assert (a + b)[|a|..] == b && (a + b)[..|a|] == a;
  }

  /** Which fields are refused whatever comes with them. */
  lemma LegalExactly(f: Field)
    ensures Legal(f) <==>
              || f.kind == 0xFF
              || (f.kind in {0x02, 0x03, 0x04, 0x05, 0x06, 0x07} && |f.value| in {2, 4, 16})
              || (f.kind == 0x16 && |f.value| >= 2) || (f.kind == 0x20 && |f.value| >= 4)
              || (f.kind == 0x21 && |f.value| >= 16)
  {
  }

  /** A whole advertisement: manufacturer data and data for a 16-bit service, written out and processed, reach
      the HAL as they were, with the UUID widened by the Base UUID. */
  lemma AdvertisementRecovered(m: seq<Byte>, u: seq<Byte>, p: seq<Byte>)
    requires |m| <= 254 && |u| == 2 && |p| <= 252
    ensures var fs := [Field(0xFF, m), Field(0x16, u + p)];
            Encodable(fs) && Parse(Encode(fs)) == Some(fs)
            && TakeAll(fs) == Some(Hal(m, p, [0xfb, 0x34, 0x9b, 0x5f, 0x80, 0, 0, 0x80, 0, 0x10, 0, 0] + u + [0, 0]))
  {
    var a, b := Field(0xFF, m), Field(0x16, u + p);
    var fs := [a, b];
    ParseEncode(fs);
    assert fs[..1] == [a] && [a][..0] == [];
    assert TakeAll([]) == Some(NOTHING) && TakeAll([a]) == Some(NOTHING.(manufacturer := m));
    assert (u + p)[2..] == p && (u + p)[..2] == u;
  }
}
