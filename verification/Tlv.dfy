/**
 Length-type-value structures of advertising and scan response data (section 11 of the Bluetooth Core
 Specification, Volume 3, Part C) and the two walkers that measure them:
 AdvertiseData::IsValid and GetScanRecordLength.
 */
module Tlv {
  import opened Common

  /** One AD structure; its length octet is one more than the size of `value`. */
  datatype Field = Field(kind: Byte, value: seq<Byte>)

  predicate Encodable(fs: seq<Field>) { forall f :: f in fs ==> |f.value| <= 254 }

  function Encode(fs: seq<Field>): seq<Byte>
    requires Encodable(fs)
  {
    if fs == [] then []
    else assert fs[0] in fs; [|fs[0].value| + 1, fs[0].kind] + fs[0].value + Encode(fs[1..])
  }

  /** The fields of `d`, or nothing when a length octet is zero or points past the end. */
  function Parse(d: seq<Byte>): (r: Option<seq<Field>>)
    ensures r.Some? ==> Encodable(r.value)
  {
    if d == [] then Some([])
    else if d[0] == 0 || d[0] >= |d| then None
    else
      match Parse(d[1 + d[0]..])
      case None => None
      case Some(rest) => Some([Field(d[1], d[2..1 + d[0]])] + rest)
  }

  /** Encoding and parsing are inverse to each other: an encoding parses to its fields, and whatever
      parses is the encoding of what it parses to. Hence the fields of a byte string are unique. */
  lemma {:induction false} ParseEncode(fs: seq<Field>)
    requires Encodable(fs)
    ensures Parse(Encode(fs)) == Some(fs)
  {
    if fs != [] {
      assert fs[0] in fs;
      var d := Encode(fs);
      ParseEncode(fs[1..]);
      assert d[1 + d[0]..] == Encode(fs[1..]);
      assert d[2..1 + d[0]] == fs[0].value;
      assert [fs[0]] + fs[1..] == fs;
    }
  }

  /** The first field and what follows it. */
  function First(d: seq<Byte>): (r: (Field, seq<Byte>))
    requires d != [] && 0 < d[0] < |d|
    ensures |r.1| < |d|
    ensures Parse(d) == Both(Some([r.0]), Parse(r.1))
  {
    (Field(d[1], d[2..1 + d[0]]), d[1 + d[0]..])
  }

  lemma FirstAppend(a: seq<Byte>, b: seq<Byte>)
    requires a != [] && 0 < a[0] < |a|
    ensures First(a + b) == (First(a).0, First(a).1 + b)
  {
    assert (a + b)[2..1 + a[0]] == a[2..1 + a[0]];
    assert (a + b)[1 + a[0]..] == a[1 + a[0]..] + b;
  }

  /** The results of two parses put together. */
  function Both(a: Option<seq<Field>>, b: Option<seq<Field>>): Option<seq<Field>> {
    if a.Some? && b.Some? then Some(a.value + b.value) else None
  }

  lemma EncodeCons(f: Field, fs: seq<Field>)
    requires Encodable(fs) && |f.value| <= 254
    ensures Encodable([f] + fs)
    ensures Encode([f] + fs) == [|f.value| + 1, f.kind] + f.value + Encode(fs)
  {
    assert ([f] + fs)[1..] == fs;
  }

  lemma {:induction false} EncodeParse(d: seq<Byte>)
    requires Parse(d).Some?
    ensures Encode(Parse(d).value) == d
    decreases |d|
  {
    if d != [] {
      var (f, rest) := First(d);
      EncodeParse(rest);
      EncodeCons(f, Parse(rest).value);
      assert [|f.value| + 1, f.kind] + f.value + rest == d;
    }
  }

  lemma BothCons(f: Field, x: Option<seq<Field>>, y: Option<seq<Field>>)
    ensures Both(Both(Some([f]), x), y) == Both(Some([f]), Both(x, y))
  {
    if x.Some? && y.Some? { assert [f] + (x.value + y.value) == [f] + x.value + y.value; }
  }

  lemma {:induction false} ParseAppend(a: seq<Byte>, b: seq<Byte>)
    requires Parse(a).Some?
    ensures Parse(a + b) == Both(Parse(a), Parse(b))
    decreases |a|
  {
    if a == [] {
      assert a + b == b;
      assert b == [] || Parse(b).None? || [] + Parse(b).value == Parse(b).value;
    } else {
      var (f, rest) := First(a);
      FirstAppend(a, b);
      ParseAppend(rest, b);
      BothCons(f, Parse(rest), Parse(b));
    }
  }

  /** One more whole field after a parsed prefix. */
  lemma ParseOneMore(d: seq<Byte>, i: nat, n: nat)
    requires i + 1 + n <= |d| && n >= 1 && d[i] == n && Parse(d[..i]).Some?
    ensures Parse(d[..i + 1 + n]) == Some(Parse(d[..i]).value + [Field(d[i+1], d[i+2..i+1+n])])
  {
    var f := d[i..i + 1 + n];
    assert f[0] == n;
    assert f[1 + f[0]..] == [];
    var one := [Field(d[i+1], f[2..1 + f[0]])];
    assert Parse(f) == Some(one + []) && one + [] == one;
    assert f[2..1 + f[0]] == d[i+2..i+1+n];
    assert d[..i + 1 + n] == d[..i] + f;
    ParseAppend(d[..i], f);
  }

  /** A parsed prefix followed by a bad length octet spoils the whole string. */
  lemma ParseBad(d: seq<Byte>, i: nat)
    requires i < |d| && Parse(d[..i]).Some? && (d[i] == 0 || i + d[i] >= |d|)
    ensures Parse(d).None?
  {
    ParseAppend(d[..i], d[i..]);
    assert d[..i] + d[i..] == d;
  }

  // ---------------------------------------------------------------------------------------------
  // AdvertiseData::IsValid

  /** Types that only the stack may set. */
  predicate Reserved(kind: Byte) {
    kind == 0x01 || kind == 0x0A || kind == 0x08 || kind == 0x09 || 0x0C <= kind <= 0x0F
  }

  lemma ReservedTypes(kind: Byte)
    ensures Reserved(kind) <==> kind in {0x01, 0x08, 0x09, 0x0A, 0x0C, 0x0D, 0x0E, 0x0F}
  {
  }

  predicate Permitted(d: seq<Byte>) {
    match Parse(d)
    case None => false
    case Some(fs) => forall f :: f in fs ==> !Reserved(f.kind)
  }

  /** One more whole field: the prefix stays permitted unless the type is reserved, which spoils all. */
  lemma PermittedMore(d: seq<Byte>, i: nat, n: nat)
    requires i + 1 + n <= |d| && n >= 1 && d[i] == n && Permitted(d[..i])
    ensures !Reserved(d[i+1]) ==> Permitted(d[..i + 1 + n])
    ensures Reserved(d[i+1]) ==> !Permitted(d)
  {
    var f, j := Field(d[i+1], d[i+2..i+1+n]), i + 1 + n;
    ParseOneMore(d, i, n);
    assert Parse(d[..j]) == Some(Parse(d[..i]).value + [f]);
    if Reserved(f.kind) {
      assert d[..j] + d[j..] == d;
      ParseAppend(d[..j], d[j..]);
      if Parse(d).Some? {
        assert Parse(d).value[|Parse(d[..i]).value|] == f;
        assert f in Parse(d).value;
      }
    }
  }

  method IsValid(d: seq<Byte>) returns (ok: bool)
    ensures ok <==> Permitted(d)
  {
    if |d| == 0 { return true; }
    var i := 0;
    while i < |d|
      invariant 0 <= i <= |d| && Permitted(d[..i])
      decreases |d| - i
    {
      var fieldLen := d[i];
      if i + fieldLen >= |d| || fieldLen < 1 {
        ParseBad(d, i);
        return false;
      }
      PermittedMore(d, i, fieldLen);
      if Reserved(d[i+1]) { return false; }
      i := i + fieldLen + 1;
    }
    assert d[..i] == d;
    ok := true;
  }

  // ---------------------------------------------------------------------------------------------
  // GetScanRecordLength

  const SCAN_RECORD_LENGTH := 62

  /** `n` is where the data of a zero-padded record ends: fields fill it up to there, and it is full or
      goes on with a zero length octet. */
  predicate EndsAt(record: seq<Byte>, n: nat) {
    && n <= |record| && Parse(record[..n]).Some?
    && (n == |record| || record[n] == 0)
  }

  /** The result; nothing stands for a failed CHECK. */
  method ScanRecordLength(record: seq<Byte>) returns (n: Option<nat>)
    requires |record| == SCAN_RECORD_LENGTH
    ensures n.Some? ==> EndsAt(record, n.value)
    ensures n.None? ==> forall k :: !EndsAt(record, k)
  {
    var i := 0;
    while i < SCAN_RECORD_LENGTH
      invariant 0 <= i <= SCAN_RECORD_LENGTH && Parse(record[..i]).Some?
      decreases SCAN_RECORD_LENGTH - i
    {
      var fieldLen := record[i];
      if !(i + fieldLen < SCAN_RECORD_LENGTH) {
        forall k ensures !EndsAt(record, k) { NoEnd(record, i, k); }
        return None;
      }
      if fieldLen == 0 {
        return Some(i);
      }
      ParseOneMore(record, i, fieldLen);
      i := i + fieldLen + 1;
    }
    n := Some(SCAN_RECORD_LENGTH);
  }

  /** Two ends of one record are the same. */
  lemma {:induction false} EndUnique(record: seq<Byte>, n: nat, k: nat)
    requires EndsAt(record, n) && EndsAt(record, k)
    ensures n == k
    decreases |record|
  {
    if record != [] && record[0] != 0 {
      var m: nat := record[0] as int + 1;
      Peel(record, n);
      Peel(record, k);
      EndUnique(record[m..], n - m, k - m);
    } else if record != [] {
      ZeroFirst(record, n);
      ZeroFirst(record, k);
    }
  }

  lemma ZeroFirst(record: seq<Byte>, n: nat)
    requires record != [] && record[0] == 0 && EndsAt(record, n)
    ensures n == 0
  {
  }

  lemma Peel(record: seq<Byte>, n: nat)
    requires record != [] && record[0] != 0 && EndsAt(record, n)
    ensures var m: nat := record[0] as int + 1; m <= n && EndsAt(record[m..], n - m)
  {
    var m: nat := record[0] as int + 1;
    assert n > 0;
    assert record[..n][0] == record[0];
    assert record[..n][m..] == record[m..][..n - m];
  }

  /** Past a parsed prefix stands a field too long for the record: it has no end. */
  lemma {:induction false} NoEnd(record: seq<Byte>, i: nat, k: nat)
    requires i < |record| && Parse(record[..i]).Some? && i + record[i] >= |record|
    ensures !EndsAt(record, k)
    decreases |record|
  {
    if EndsAt(record, k) {
      if i == 0 {
        Peel(record, k);
      } else {
        var m: nat := record[0] as int + 1;
        assert record[..i][0] == record[0];
        assert record[..i][m..] == record[m..][..i - m];
        Peel(record, k);
        NoEnd(record[m..], i - m, k - m);
      }
    }
  }

  function Padded(fs: seq<Field>): seq<Byte>
    requires Encodable(fs) && |Encode(fs)| <= SCAN_RECORD_LENGTH
  {
    Encode(fs) + seq(SCAN_RECORD_LENGTH - |Encode(fs)|, _ => 0)
  }

  /** Round trip: the end of a padded encoding is found exactly, and what lies before it parses back. */
  lemma ScanRecordRoundTrip(fs: seq<Field>, n: nat)
    requires Encodable(fs) && |Encode(fs)| <= SCAN_RECORD_LENGTH
    ensures EndsAt(Padded(fs), n) <==> n == |Encode(fs)|
    ensures Parse(Padded(fs)[..|Encode(fs)|]) == Some(fs)
  {
    var record := Padded(fs);
    ParseEncode(fs);
    assert record[..|Encode(fs)|] == Encode(fs);
    assert EndsAt(record, |Encode(fs)|);
    if EndsAt(record, n) { EndUnique(record, n, |Encode(fs)|); }
  }

  /** The loop on a padded encoding returns exactly its size. */
  method MeasureEncoded(fs: seq<Field>) returns (n: nat)
    requires Encodable(fs) && |Encode(fs)| <= SCAN_RECORD_LENGTH
    ensures n == |Encode(fs)| && Parse(Padded(fs)[..n]) == Some(fs)
  {
    var end := ScanRecordLength(Padded(fs));
    ScanRecordRoundTrip(fs, |Encode(fs)|);
    ScanRecordRoundTrip(fs, end.value);
    n := end.value;
  }
}
