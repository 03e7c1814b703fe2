/**
 Sectioned reads of long attribute values (service/gatt_server_old.cpp). A value longer than one
 attribute is read in sections of 512 octets; a one-octet write to its control attribute selects the
 section, and a read from the very start latches the value set last.
 */
module BlobReads {
  import opened Common

  const MAX_ATTRIBUTE := 512

  /** `section` is only ever set from one octet. */
  datatype Attr = Attr(section: Byte, blob: seq<Byte>, next: seq<Byte>, pending: bool)

  const DEFAULT := Attr(0, [], [], false)

  type Handle = int
  type Uuid = int

  datatype Server = Server(attrs: map<Handle, Attr>, ids: map<Uuid, Handle>, controlled: map<Handle, Handle>)

  /** Looking up a missing key in the source's maps creates a default entry. */
  function At(s: Server, h: Handle): Attr { if h in s.attrs then s.attrs[h] else DEFAULT }

  function HandleOf(s: Server, id: Uuid): Handle { if id in s.ids then s.ids[id] else 0 }

  function Put(s: Server, h: Handle, a: Attr): Server { s.(attrs := s.attrs[h := a]) }

  function Min(a: nat, b: nat): nat { if a < b then a else b }

  /** Section k of a value: octets 512k up to 512(k+1), as far as the value goes. */
  function Section(v: seq<Byte>, k: nat): (r: seq<Byte>)
    ensures |r| <= MAX_ATTRIBUTE
  {
    v[Min(|v|, k * MAX_ATTRIBUTE)..Min(|v|, (k + 1) * MAX_ATTRIBUTE)]
  }

  function From(v: seq<Byte>, offset: nat): seq<Byte> { v[Min(|v|, offset)..] }

  // ---------------------------------------------------------------------------------------------
  // Specification

  predicate Fresh(s: Server, h: Handle, offset: nat) { offset == 0 && At(s, h).section == 0 }

  /** The value that reads of `h` show from this read on. */
  function Shown(s: Server, h: Handle, offset: nat): seq<Byte> {
    if Fresh(s, h, offset) && At(s, h).pending then At(s, h).next else At(s, h).blob
  }

  function Read(s: Server, h: Handle, offset: nat): (Server, seq<Byte>) {
    var a := At(s, h);
    var a' := if Fresh(s, h, offset) && a.pending then a.(blob := a.next, next := a.blob, pending := false) else a;
    (Put(s, h, a'), From(Section(a'.blob, a'.section), offset))
  }

  /** resize followed by copy. */
  function Overwritten(blob: seq<Byte>, offset: nat, value: seq<Byte>): (r: seq<Byte>)
    ensures |r| == offset + |value|
  {
    (if |blob| >= offset then blob[..offset] else blob + seq(offset - |blob|, _ => 0)) + value
  }

  function Write(s: Server, h: Handle, offset: nat, value: seq<Byte>): Server {
    var a := At(s, h).(blob := Overwritten(At(s, h).blob, offset, value));
    var s1 := Put(s, h, a);
    if h in s.controlled && |a.blob| == 1 then
      Put(s1, s.controlled[h], At(s1, s.controlled[h]).(section := a.blob[0]))
    else s1
  }

  function SetValue(s: Server, id: Uuid, value: seq<Byte>): Server {
    var h := HandleOf(s, id);
    Put(s.(ids := s.ids[id := h]), h, At(s, h).(next := value, pending := true))
  }

  // ---------------------------------------------------------------------------------------------
  // The server object

  class ServerInternals {
    var attrs: map<Handle, Attr>
    var ids: map<Uuid, Handle>
    var controlled: map<Handle, Handle>

    ghost function View(): Server
      reads this
    {
      Server(attrs, ids, controlled)
    }

    constructor (ids: map<Uuid, Handle>, controlled: map<Handle, Handle>)
      ensures View() == Server(map[], ids, controlled)
    {
      attrs := map[];
      this.ids := ids;
      this.controlled := controlled;
    }

    /** operator[] of the attribute cache. */
    method Touch(h: Handle)
      modifies this`attrs
      ensures View() == Put(old(View()), h, At(old(View()), h))
    {
      if h !in attrs { attrs := attrs[h := DEFAULT]; }
      assert attrs == old(View()).attrs[h := At(old(View()), h)];
    }

    /** Latches the waiting value on a fresh read. */
    method Latch(h: Handle, offset: nat) returns (ch: Attr)
      modifies this`attrs
      ensures View() == Read(old(View()), h, offset).0 && ch == At(View(), h)
    {
      Touch(h);
      ch := attrs[h];
      if ch.pending && offset == 0 && ch.section == 0 {
        ch := ch.(blob := ch.next, next := ch.blob);
        ch := ch.(pending := false);
      }
      attrs := attrs[h := ch];
      assert attrs == old(View()).attrs[h := ch];
    }

    method RequestRead(h: Handle, offset: nat) returns (response: seq<Byte>)
      modifies this`attrs
      ensures (View(), response) == Read(old(View()), h, offset)
    {
      var ch := Latch(h, offset);
      var blobOffset := Min(|ch.blob|, ch.section * MAX_ATTRIBUTE);
      var blobRemaining := |ch.blob| - blobOffset;
      var attributeSize := Min(MAX_ATTRIBUTE, blobRemaining);
      response := [];
      if offset < attributeSize {
        response := ch.blob[blobOffset + offset..blobOffset + attributeSize];
      }
      SliceArithmetic(ch.blob, ch.section, offset);
    }

    method RequestWrite(h: Handle, offset: nat, value: seq<Byte>)
      modifies this`attrs
      ensures View() == Write(old(View()), h, offset, value)
    {
      var size := StoreValue(h, offset, value);
      if h in controlled && size == 1 {
        SelectSection(controlled[h], attrs[h].blob[0]);
      }
    }

    /** resize and copy into the attribute's value; returns its new size. */
    method StoreValue(h: Handle, offset: nat, value: seq<Byte>) returns (size: nat)
      modifies this`attrs
      ensures size == offset + |value| && h in attrs
      ensures var was := old(View());
              View() == Put(was, h, At(was, h).(blob := Overwritten(At(was, h).blob, offset, value)))
    {
      Touch(h);
      var ch := attrs[h];
      size := offset + |value|;
      var blob := if |ch.blob| >= size then ch.blob[..size] else ch.blob + seq(size - |ch.blob|, _ => 0);
      blob := blob[..offset] + value;
      assert blob == Overwritten(ch.blob, offset, value);
      attrs := attrs[h := ch.(blob := blob)];
      assert attrs == old(View()).attrs[h := ch.(blob := blob)];
    }

    method SelectSection(target: Handle, section: Byte)
      modifies this`attrs
      ensures View() == Put(old(View()), target, At(old(View()), target).(section := section))
    {
      Touch(target);
      attrs := attrs[target := attrs[target].(section := section)];
      assert attrs == old(View()).attrs[target := At(old(View()), target).(section := section)];
    }

    method SetCharacteristicValue(id: Uuid, value: seq<Byte>)
      modifies this`attrs, this`ids
      ensures View() == SetValue(old(View()), id, value)
    {
      if id !in ids { ids := ids[id := 0]; }
      assert ids == old(ids)[id := HandleOf(old(View()), id)];
      var h := ids[id];
      Touch(h);
      attrs := attrs[h := attrs[h].(next := value, pending := true)];
      assert attrs == old(attrs)[h := At(old(View()), h).(next := value, pending := true)];
    }
  }

  lemma SliceArithmetic(v: seq<Byte>, k: nat, offset: nat)
    ensures var start := Min(|v|, k * MAX_ATTRIBUTE);
            var size := Min(MAX_ATTRIBUTE, |v| - start);
            From(Section(v, k), offset) == if offset < size then v[start + offset..start + size] else []
  {
  }

  // ---------------------------------------------------------------------------------------------
  // Snapshots

  datatype Event =
    | OnRead(h: Handle, offset: nat)
    | OnWrite(h: Handle, offset: nat, value: seq<Byte>)
    | OnSetValue(id: Uuid, value: seq<Byte>)

  function Step(s: Server, e: Event): Server {
    match e
    case OnRead(h, offset) => Read(s, h, offset).0
    case OnWrite(h, offset, value) => Write(s, h, offset, value)
    case OnSetValue(id, value) => SetValue(s, id, value)
  }

  function Run(s: Server, es: seq<Event>): Server {
    if es == [] then s else Step(Run(s, es[..|es|-1]), es[|es|-1])
  }

  /** The responses of a run to its reads, in order. */
  function Responses(s: Server, es: seq<Event>): seq<seq<Byte>> {
    if es == [] then []
    else
      var init, e := es[..|es|-1], es[|es|-1];
      Responses(s, init) + if e.OnRead? then [Read(Run(s, init), e.h, e.offset).1] else []
  }

  /** Any sequence of requests and updates on the object follows the specified run, response by
      response. */
  method Serve(o: ServerInternals, es: seq<Event>) returns (responses: seq<seq<Byte>>)
    modifies o
    ensures o.View() == Run(old(o.View()), es) && responses == Responses(old(o.View()), es)
  {
    responses := [];
    for i := 0 to |es|
      invariant o.View() == Run(old(o.View()), es[..i]) && responses == Responses(old(o.View()), es[..i])
    {
      assert es[..i+1][..i] == es[..i];
      match es[i] {
        case OnRead(h, offset) =>
          var response := o.RequestRead(h, offset);
          responses := responses + [response];
        case OnWrite(h, offset, value) => o.RequestWrite(h, offset, value);
        case OnSetValue(id, value) => o.SetCharacteristicValue(id, value);
      }
    }
    assert es[..|es|] == es;
  }

  lemma OverwrittenExactly(was: seq<Byte>, offset: nat, value: seq<Byte>)
    ensures var blob := Overwritten(was, offset, value);
            && blob[offset..] == value
            && forall i :: 0 <= i < offset ==> blob[i] == if i < |was| then was[i] else 0
  {
  }

  /** What a client write does: the value ends with what was written at the offset, keeps what came before it
      and is filled with zeros in between. One octet in a control attribute selects the section of its target,
      anything else selects nothing; no other attribute changes. */
  lemma WriteExactly(s: Server, h: Handle, offset: nat, value: seq<Byte>, g: Handle)
    requires h in s.controlled ==> s.controlled[h] != h
    ensures var (t, was) := (Write(s, h, offset, value), At(s, h).blob);
            var blob := At(t, h).blob;
            && |blob| == offset + |value| && blob[offset..] == value
            && (forall i :: 0 <= i < offset ==> blob[i] == if i < |was| then was[i] else 0)
            && At(t, h).section == At(s, h).section && At(t, h).next == At(s, h).next
            && At(t, h).pending == At(s, h).pending
            && (g != h ==> At(t, g) == if h in s.controlled && s.controlled[h] == g && offset + |value| == 1
                                       then At(s, g).(section := blob[0]) else At(s, g))
            && t.ids == s.ids && t.controlled == s.controlled
  {
    OverwrittenExactly(At(s, h).blob, offset, value);
    assert At(Write(s, h, offset, value), h).blob == Overwritten(At(s, h).blob, offset, value);
  }

  /** A written value that fits one attribute is read back from any offset. */
  lemma WriteThenRead(s: Server, h: Handle, value: seq<Byte>, offset: nat)
    requires h !in s.controlled && At(s, h).section == 0 && !At(s, h).pending
    requires |value| <= MAX_ATTRIBUTE && offset <= |value|
    ensures Read(Write(s, h, 0, value), h, offset).1 == value[offset..]
  {
    var t := Write(s, h, 0, value);
    WriteExactly(s, h, 0, value, h);
    assert At(t, h).blob == At(t, h).blob[0..] == value;
    assert Section(value, 0) == value;
  }

  /** Setting a value or reading touches its own attribute alone; setting shows nothing yet, and a read changes
      what is shown only if it starts at the beginning of the first section and a value waits. */
  lemma OthersUntouched(s: Server, h: Handle, offset: nat, id: Uuid, value: seq<Byte>, g: Handle)
    ensures var t := Read(s, h, offset).0;
            && (g != h ==> At(t, g) == At(s, g))
            && At(t, h).section == At(s, h).section
            && At(t, h).blob == (if offset == 0 && At(s, h).section == 0 && At(s, h).pending then At(s, h).next
                                 else At(s, h).blob)
            && At(t, h).next == (if At(t, h).pending == At(s, h).pending then At(s, h).next else At(s, h).blob)
            && (At(t, h).pending <==> At(s, h).pending && !(offset == 0 && At(s, h).section == 0))
    ensures var (t, k) := (SetValue(s, id, value), if id in s.ids then s.ids[id] else 0);
            && (g != k ==> At(t, g) == At(s, g))
            && At(t, k) == At(s, k).(next := value, pending := true)
  {
  }

  /** Nothing in the run replaces the value of h: no fresh read of it and no write to it. */
  predicate Quiet(s: Server, h: Handle, es: seq<Event>) {
    es == []
    || (&& Quiet(s, h, es[..|es|-1])
        && match es[|es|-1]
           case OnRead(g, offset) => g != h || !Fresh(Run(s, es[..|es|-1]), h, offset)
           case OnWrite(g, _, _) => g != h
           case OnSetValue(_, _) => true)
  }

  lemma {:induction false} QuietKeepsValue(s: Server, h: Handle, es: seq<Event>)
    requires Quiet(s, h, es)
    ensures At(Run(s, es), h).blob == At(s, h).blob
  {
    if es != [] {
      QuietKeepsValue(s, h, es[..|es|-1]);
    }
  }

  /** A fresh read latches: until the next fresh read of the attribute or client write to it, every
      response is a slice of the value that read showed, whatever values are set meanwhile. */
  lemma Snapshot(s: Server, h: Handle, es: seq<Event>, offset: nat)
    requires Fresh(s, h, 0)
    requires var s1 := Read(s, h, 0).0; Quiet(s1, h, es) && !Fresh(Run(s1, es), h, offset)
    ensures var latched := Shown(s, h, 0);
            var s2 := Run(Read(s, h, 0).0, es);
            Read(s2, h, offset).1 == From(Section(latched, At(s2, h).section), offset)
    ensures At(s, h).pending ==> Shown(s, h, 0) == At(s, h).next
  {
    QuietKeepsValue(Read(s, h, 0).0, h, es);
  }

  /** The value set last before a fresh read is what it shows, if a value was set since the last one. */
  lemma FreshReadShowsLatest(s: Server, id: Uuid, value: seq<Byte>)
    requires Fresh(s, HandleOf(s, id), 0)
    ensures var s1 := SetValue(s, id, value);
            Read(s1, HandleOf(s, id), 0).1 == Section(value, 0)
  {
    assert From(Section(value, 0), 0) == Section(value, 0);
  }

  // ---------------------------------------------------------------------------------------------
  // Reading a whole value

  /** The sections below m, one after the other. */
  function Sections(v: seq<Byte>, m: nat): seq<Byte> {
    if m == 0 then [] else Sections(v, m - 1) + Section(v, m - 1)
  }

  lemma {:induction false} SectionsArePrefix(v: seq<Byte>, m: nat)
    ensures Sections(v, m) == v[..Min(|v|, m * MAX_ATTRIBUTE)]
  {
    if m > 0 {
      SectionsArePrefix(v, m - 1);
      var a, b := Min(|v|, (m - 1) * MAX_ATTRIBUTE), Min(|v|, m * MAX_ATTRIBUTE);
      assert v[..a] + v[a..b] == v[..b];
    }
  }

  /** What else happens in one round of the client's procedure, before it selects a section and between
      that and its read. */
  datatype Round = Round(noise: seq<Event>, pause: seq<Event>)

  /** Values set, reads of other attributes, and writes that neither hit h nor select a section of it. */
  predicate Harmless(s: Server, h: Handle, es: seq<Event>) {
    forall e :: e in es ==> Spares(s, h, e)
  }

  predicate Spares(s: Server, h: Handle, e: Event) {
    match e
    case OnSetValue(_, _) => true
    case OnRead(g, _) => g != h
    case OnWrite(g, _, _) => g != h && (g in s.controlled ==> s.controlled[g] != h)
  }

  lemma {:induction false} HarmlessKeep(s: Server, h: Handle, es: seq<Event>)
    requires Harmless(s, h, es)
    ensures At(Run(s, es), h).blob == At(s, h).blob && At(Run(s, es), h).section == At(s, h).section
    ensures Run(s, es).controlled == s.controlled
  {
    if es != [] {
      assert Spares(s, h, es[|es|-1]);
      assert forall e :: e in es[..|es|-1] ==> e in es;
      HarmlessKeep(s, h, es[..|es|-1]);
    }
  }

  /** What a fresh read would show: the value that waits, else the one shown so far. */
  function Offered(s: Server, h: Handle): seq<Byte> {
    if At(s, h).pending then At(s, h).next else At(s, h).blob
  }

  /** The value set last for h in a run, else what was offered before it. */
  function LastSet(s: Server, h: Handle, es: seq<Event>): seq<Byte> {
    if es == [] then Offered(s, h)
    else
      var init, e := es[..|es|-1], es[|es|-1];
      if e.OnSetValue? && HandleOf(Run(s, init), e.id) == h then e.value else LastSet(s, h, init)
  }

  lemma {:induction false} OfferedIsLastSet(s: Server, h: Handle, es: seq<Event>)
    requires Harmless(s, h, es)
    ensures Offered(Run(s, es), h) == LastSet(s, h, es)
  {
    if es != [] {
      var init := es[..|es|-1];
      assert Spares(s, h, es[|es|-1]);
      assert forall e :: e in init ==> e in es;
      OfferedIsLastSet(s, h, init);
      HarmlessKeep(s, h, init);
    }
  }

  /** The state in which a round reads. */
  function Selected(s: Server, ctl: Handle, k: Byte, round: Round): Server {
    Run(Write(Run(s, round.noise), ctl, 0, [k]), round.pause)
  }

  /** One round: the state after it and the octets read. */
  function Fetch(s: Server, h: Handle, ctl: Handle, k: Byte, round: Round): (Server, seq<Byte>) {
    Read(Selected(s, ctl, k, round), h, 0)
  }

  function FetchAll(s: Server, h: Handle, ctl: Handle, rounds: seq<Round>): (Server, seq<Byte>)
    requires |rounds| <= 256
  {
    var m := |rounds|;
    if m == 0 then (s, [])
    else
      var before := FetchAll(s, h, ctl, rounds[..m-1]);
      var last := Fetch(before.0, h, ctl, m - 1, rounds[m-1]);
      (last.0, before.1 + last.1)
  }

  /** The control attribute selects sections of h and of nothing else. */
  predicate Controls(s: Server, ctl: Handle, h: Handle) { ctl in s.controlled && s.controlled[ctl] == h && h != ctl }

  lemma SelectedKeeps(s: Server, h: Handle, ctl: Handle, k: Byte, round: Round)
    requires Controls(s, ctl, h) && Harmless(s, h, round.noise) && Harmless(s, h, round.pause)
    ensures var t := Selected(s, ctl, k, round);
            t.controlled == s.controlled && At(t, h).section == k && At(t, h).blob == At(s, h).blob
  {
    var s1 := Run(s, round.noise);
    HarmlessKeep(s, h, round.noise);
    var s2 := Write(s1, ctl, 0, [k]);
    assert Overwritten(At(s1, ctl).blob, 0, [k]) == [k];
    assert At(s2, h).section == k && At(s2, h).blob == At(s1, h).blob;
    HarmlessKeep(s2, h, round.pause);
  }

  lemma FetchOne(s: Server, h: Handle, ctl: Handle, k: Byte, round: Round)
    requires Controls(s, ctl, h) && Harmless(s, h, round.noise) && Harmless(s, h, round.pause)
    ensures var (s', read) := Fetch(s, h, ctl, k, round);
            && s'.controlled == s.controlled && At(s', h).section == k
            && read == Section(At(s', h).blob, k)
            && At(s', h).blob == if k == 0 then Offered(Selected(s, ctl, k, round), h) else At(s, h).blob
  {
    SelectedKeeps(s, h, ctl, k, round);
    var v := At(Fetch(s, h, ctl, k, round).0, h).blob;
    assert From(Section(v, k), 0) == Section(v, k);
  }

  /** The value that a pass over the sections of h reads: what is offered when its first read comes. */
  function Latched(s: Server, h: Handle, ctl: Handle, rounds: seq<Round>): seq<Byte>
    requires rounds != []
  {
    Offered(Selected(s, ctl, 0, rounds[0]), h)
  }

  /** That is the value set last before the first read, or what was offered before the pass. */
  lemma LatchedIsLastSet(s: Server, h: Handle, ctl: Handle, rounds: seq<Round>)
    requires rounds != [] && Controls(s, ctl, h)
    requires Harmless(s, h, rounds[0].noise) && Harmless(s, h, rounds[0].pause)
    ensures var t := Write(Run(s, rounds[0].noise), ctl, 0, [0]);
            && Latched(s, h, ctl, rounds) == LastSet(t, h, rounds[0].pause)
            && Offered(t, h) == LastSet(s, h, rounds[0].noise)
  {
    var r := rounds[0];
    HarmlessKeep(s, h, r.noise);
    OfferedIsLastSet(s, h, r.noise);
    var t := Write(Run(s, r.noise), ctl, 0, [0]);
    assert Offered(t, h) == Offered(Run(s, r.noise), h);
    OfferedIsLastSet(t, h, r.pause);
  }

  /** The state before the last round, and one more section. */
  lemma LastRound(t: Server, h: Handle, ctl: Handle, k: Byte, round: Round, read: seq<Byte>, v: seq<Byte>)
    requires k > 0 && Controls(t, ctl, h) && Harmless(t, h, round.noise) && Harmless(t, h, round.pause)
    requires At(t, h).blob == v && read == Sections(v, k)
    ensures var (t', more) := Fetch(t, h, ctl, k, round);
            t'.controlled == t.controlled && At(t', h).blob == v && read + more == Sections(v, k + 1)
  {
    FetchOne(t, h, ctl, k, round);
  }

  lemma FirstRound(s: Server, h: Handle, ctl: Handle, rounds: seq<Round>)
    requires |rounds| == 1 && Controls(s, ctl, h)
    requires Harmless(s, h, rounds[0].noise) && Harmless(s, h, rounds[0].pause)
    ensures var (t, read) := FetchAll(s, h, ctl, rounds);
            var v := Latched(s, h, ctl, rounds);
            t.controlled == s.controlled && At(t, h).blob == v && read == Sections(v, 1)
  {
    FetchOne(s, h, ctl, 0, rounds[0]);
    assert FetchAll(s, h, ctl, rounds[..0]) == (s, []);
  }

  /** Reading sections 0, 1, 2, ... of a value yields one consistent value no matter which values are set
      or other attributes used between the reads: exactly the octets of the value offered at the first read,
      up to the number of sections asked for. */
  lemma {:induction false} FetchRebuilds(s: Server, h: Handle, ctl: Handle, rounds: seq<Round>)
    requires 1 <= |rounds| <= 256 && Controls(s, ctl, h)
    requires forall r :: r in rounds ==> Harmless(s, h, r.noise) && Harmless(s, h, r.pause)
    ensures var (t, read) := FetchAll(s, h, ctl, rounds);
            var v := Latched(s, h, ctl, rounds);
            t.controlled == s.controlled && At(t, h).blob == v && read == Sections(v, |rounds|)
  {
    var m := |rounds|;
    assert rounds[m-1] in rounds;
    if m == 1 {
      FirstRound(s, h, ctl, rounds);
    } else {
      var init := rounds[..m-1];
      assert init[0] == rounds[0] && forall r :: r in init ==> r in rounds;
      FetchRebuilds(s, h, ctl, init);
      var (t, read) := FetchAll(s, h, ctl, init);
      LastRound(t, h, ctl, m - 1, rounds[m-1], read, Latched(s, h, ctl, rounds));
    }
  }

  /** A pass of m sections, at most 256, rebuilds the value offered at its first read exactly if and only
      if that value fits: at most 512 octets per section, so at most 131072 in all. */
  lemma WholeValue(s: Server, h: Handle, ctl: Handle, rounds: seq<Round>)
    requires 1 <= |rounds| <= 256 && Controls(s, ctl, h)
    requires forall r :: r in rounds ==> Harmless(s, h, r.noise) && Harmless(s, h, r.pause)
    ensures FetchAll(s, h, ctl, rounds).1 == Latched(s, h, ctl, rounds)
            <==> |Latched(s, h, ctl, rounds)| <= |rounds| * 512
  {
    FetchRebuilds(s, h, ctl, rounds);
    SectionsArePrefix(Latched(s, h, ctl, rounds), |rounds|);
  }
}
