/**
 AT+BIA: the hands-free unit switches individual indicators on and off
 (bta/ag/bta_ag_cmd.c, the BTA_AG_HF_CMD_BIA branch of bta_ag_at_hfp_cback).
 The 32-bit mask bia_masked_out is kept as the set of its one bits.
 */
module BiaMask {

  /** BTA_AG_AT_MAX_LEN, from include/bt_target.h, which every audio gateway file includes before the
      default of the public header; the argument is copied into a zeroed buffer one longer than this. */
  const AT_MAX_LEN := 512
  const MAX_INDICATORS := 20

  // ---------------------------------------------------------------------------------------------
  // Field-wise specification

  /** The comma-separated fields of `s`; there is always at least one, possibly empty. */
  function Split(s: string): (r: seq<string>)
    ensures |r| >= 1
  {
    if s == "" then [""]
    else
      var rest := Split(s[1..]);
      if s[0] == ',' then [""] + rest else [[s[0]] + rest[0]] + rest[1..]
  }

  /** How the first field of a non-empty text begins and where it ends. */
  lemma FirstField(t: string)
    requires t != ""
    ensures t[0] == ',' ==> Split(t) == [""] + Split(t[1..])
    ensures t[0] != ',' ==> Split(t)[0] != "" && Split(t)[0][0] == t[0]
    ensures t[0] != ',' && |t| == 1 ==> Split(t) == [t]
    ensures t[0] != ',' && |t| > 1 && t[1] == ',' ==> Split(t) == [[t[0]]] + Split(t[2..])
    ensures t[0] != ',' && |t| > 1 && t[1] != ',' ==> |Split(t)[0]| >= 2
  {
    var u := t[1..];
    if t[0] != ',' {
      assert Split(t) == [[t[0]] + Split(u)[0]] + Split(u)[1..];
      if |t| == 1 {
        assert Split(u) == [""] && [t[0]] + "" == t;
      } else if t[1] == ',' {
        assert u[1..] == t[2..];
        assert Split(u) == [""] + Split(t[2..]);
        assert Split(u)[1..] == Split(t[2..]) && [t[0]] + "" == [t[0]];
      } else {
        assert Split(u)[0] == [u[0]] + Split(u[1..])[0];
      }
    }
  }

  /** The inverse of `Split`. */
  function Join(fields: seq<string>): string
    requires fields != []
  {
    if |fields| == 1 then fields[0] else fields[0] + "," + Join(fields[1..])
  }

  lemma {:induction false} SplitField(f: string, rest: string)
    requires ',' !in f
    ensures Split(f) == [f]
    ensures Split(f + "," + rest) == [f] + Split(rest)
  {
    if f == "" {
      assert f + "," + rest == "," + rest && ("," + rest)[1..] == rest;
    } else {
      SplitField(f[1..], rest);
      assert (f + "," + rest)[1..] == f[1..] + "," + rest;
      assert [f[0]] + f[1..] == f;
    }
  }

  /** Fields written out with commas are read back unchanged. */
  lemma {:induction false} SplitJoin(fields: seq<string>)
    requires fields != [] && forall f :: f in fields ==> ',' !in f
    ensures Split(Join(fields)) == fields
  {
    if |fields| == 1 {
      SplitField(fields[0], "");
    } else {
      SplitJoin(fields[1..]);
      SplitField(fields[0], Join(fields[1..]));
    }
  }

  predicate LegalField(f: string) { f == "" || f == "0" || f == "1" }

  /** Every field is empty, "0" or "1" and there are at most twenty, save for one trailing comma. */
  predicate Accepted(fields: seq<string>) {
    && (forall f :: f in fields ==> LegalField(f))
    && (|fields| <= MAX_INDICATORS || (|fields| == MAX_INDICATORS + 1 && fields[MAX_INDICATORS] == ""))
  }

  function Commas(s: string): nat {
    if s == "" then 0 else (if s[0] == ',' then 1 else 0) + Commas(s[1..])
  }

  lemma {:induction false} FieldsAreCommas(s: string)
    ensures |Split(s)| == Commas(s) + 1
  {
    if s != "" { FieldsAreCommas(s[1..]); }
  }

  /** Only digits 0 and 1 and commas, and no two digits in a row. */
  predicate Spaced(s: string) {
    && (forall i :: 0 <= i < |s| ==> s[i] == '0' || s[i] == '1' || s[i] == ',')
    && (forall i :: 0 <= i < |s| - 1 ==> s[i] == ',' || s[i+1] == ',')
  }

  lemma {:induction false} LegalIsSpaced(s: string)
    ensures (forall f :: f in Split(s) ==> LegalField(f)) <==> Spaced(s)
  {
    if s != "" {
      var t := s[1..];
      var fields, rest := Split(s), Split(t);
      LegalIsSpaced(t);
      FirstField(s);
      assert forall i :: 0 <= i < |t| ==> t[i] == s[i+1];
      if s[0] == ',' {
        assert fields == [""] + rest;
        assert forall f :: f in fields <==> f == "" || f in rest;
        assert Spaced(s) <==> Spaced(t);
      } else {
        assert fields == [[s[0]] + rest[0]] + rest[1..];
        assert forall f :: f in fields <==> f == fields[0] || f in rest[1..];
        assert forall f :: f in rest <==> f == rest[0] || f in rest[1..];
        if t != "" { FirstField(t); }
        assert rest[0] == "" <==> t == "" || t[0] == ',';
        assert LegalField(fields[0]) <==> (s[0] == '0' || s[0] == '1') && rest[0] == "";
        assert Spaced(s) <==> (s[0] == '0' || s[0] == '1') && (t == "" || t[0] == ',') && Spaced(t) by {
          if Spaced(s) && t != "" { assert s[0] == ',' || s[0 + 1] == ','; }
        }
      }
    }
  }

  lemma {:induction false} LastField(s: string)
    ensures var fields := Split(s); fields[|fields|-1] == "" <==> s == "" || s[|s|-1] == ','
  {
    if s != "" {
      LastField(s[1..]);
      if s[0] != ',' && |Split(s[1..])| == 1 { FieldsAreCommas(s[1..]); }
    }
  }

  /** The accepted arguments, character by character: zeros, ones and commas, no two digits together, at most
      nineteen commas or twenty of which one ends the text. */
  lemma AcceptedText(s: string)
    ensures Accepted(Split(s)) <==>
              Spaced(s) && (Commas(s) <= 19 || (Commas(s) == 20 && s[|s|-1] == ','))
  {
    LegalIsSpaced(s);
    FieldsAreCommas(s);
    LastField(s);
  }

  /** Field number k (counted from one) sets, clears or keeps bit k. */
  function Apply(mask: set<nat>, fields: seq<string>): set<nat> {
    if fields == [] then mask
    else
      var k := |fields|;
      var before := Apply(mask, fields[..k-1]);
      if fields[k-1] == "0" then before + {k}
      else if fields[k-1] == "1" then before - {k}
      else before
  }

  /** Bit k depends on field k alone. */
  lemma {:induction false} ApplyBit(mask: set<nat>, fields: seq<string>, k: nat)
    ensures k in Apply(mask, fields) <==>
            if 1 <= k <= |fields| && fields[k-1] == "0" then true
            else if 1 <= k <= |fields| && fields[k-1] == "1" then false
            else k in mask
  {
    if fields != [] {
      ApplyBit(mask, fields[..|fields|-1], k);
    }
  }

  lemma ApplySnoc(mask: set<nat>, fields: seq<string>, f: string)
    ensures var before, k := Apply(mask, fields), |fields| + 1;
            Apply(mask, fields + [f]) ==
              if f == "0" then before + {k} else if f == "1" then before - {k} else before
  {
    assert (fields + [f])[..|fields|] == fields;
  }

  /** The argument text as strlcpy leaves it. */
  function Kept(arg: string): string {
    if |arg| < AT_MAX_LEN then arg else arg[..AT_MAX_LEN - 1]
  }

  /** Legal fields are short: each adds at most its comma and one digit. */
  lemma {:induction false} LegalLength(t: string)
    requires forall f :: f in Split(t) ==> LegalField(f)
    ensures |t| <= 2 * |Split(t)| - 1
    decreases |t|
  {
    if t != "" {
      FirstField(t);
      var fields := Split(t);
      assert LegalField(fields[0]);
      if t[0] == ',' {
        assert forall f :: f in Split(t[1..]) ==> f in fields;
        LegalLength(t[1..]);
      } else if |t| > 1 {
        assert t[1] == ',';
        assert forall f :: f in Split(t[2..]) ==> f in fields;
        LegalLength(t[2..]);
      }
    }
  }

  /** Cutting the argument to the buffer changes nothing: a list long enough to be cut is refused, cut
      or not. */
  lemma KeptSuffices(arg: string)
    ensures Accepted(Split(Kept(arg))) <==> Accepted(Split(arg))
    ensures Accepted(Split(arg)) ==> Kept(arg) == arg
  {
    if Accepted(Split(arg)) { LegalLength(arg); }
    if Accepted(Split(Kept(arg))) { LegalLength(Kept(arg)); }
  }

  // ---------------------------------------------------------------------------------------------
  // The character loop

  /** val.str after memset and strlcpy. */
  function Buffer(arg: string): (r: string)
    ensures |r| == AT_MAX_LEN + 1
    ensures Kept(arg) <= r
    ensures forall i :: |Kept(arg)| <= i < |r| ==> r[i] == '\0'
  {
    Kept(arg) + seq(AT_MAX_LEN + 1 - |Kept(arg)|, _ => '\0')
  }

  /** The fields `done` have been read and the scan stands at position i; position |text| + 1 means
      the scan stepped over the terminating NUL after a last non-empty field. */
  ghost predicate Scanned(text: string, i: nat, done: seq<string>) {
    && i <= |text| + 1
    && (forall f :: f in done ==> LegalField(f))
    && Split(text) == if i <= |text| then done + Split(text[i..]) else done
  }

  lemma StepComma(text: string, i: nat, done: seq<string>)
    requires i < |text| && Scanned(text, i, done) && text[i] == ','
    ensures Scanned(text, i + 1, done + [""])
  {
    var t := text[i..];
    FirstField(t);
    assert t[1..] == text[i+1..];
    assert done + ([""] + Split(t[1..])) == done + [""] + Split(t[1..]);
  }

  lemma StepDigit(text: string, i: nat, done: seq<string>)
    requires i < |text| && Scanned(text, i, done) && (text[i] == '0' || text[i] == '1')
    requires i + 1 == |text| || text[i+1] == ','
    ensures Scanned(text, i + 2, done + [[text[i]]])
  {
    var t := text[i..];
    FirstField(t);
    if |t| > 1 {
      assert t[2..] == text[i+2..];
      assert done + ([[t[0]]] + Split(t[2..])) == done + [[t[0]]] + Split(t[2..]);
    } else {
      assert t == [text[i]];
    }
  }

  /** Anything but a comma or a lone digit at the scan position spoils the whole list. */
  lemma StepBad(text: string, i: nat, done: seq<string>)
    requires i < |text| && Scanned(text, i, done) && text[i] != ','
    requires (text[i] == '0' || text[i] == '1') ==> i + 1 < |text| && text[i+1] != ','
    ensures !Accepted(Split(text))
  {
    FirstField(text[i..]);
    var f := Split(text)[|done|];
    assert f == Split(text[i..])[0] && f in Split(text);
    assert f[0] == text[i];
    assert !LegalField(f);
  }

  /** A list is also spoilt when text is left over after twenty fields. */
  lemma LeftOver(text: string, i: nat, done: seq<string>)
    requires i < |text| && Scanned(text, i, done) && |done| == MAX_INDICATORS
    ensures !Accepted(Split(text))
  {
    var t := text[i..];
    FirstField(t);
    assert |Split(text)| == MAX_INDICATORS + |Split(t)|;
    assert Split(text)[MAX_INDICATORS] == Split(t)[0];
    if t[0] == ',' { assert |Split(t)| == 1 + |Split(t[1..])|; }
  }

  lemma Finished(mask: set<nat>, text: string, i: nat, done: seq<string>)
    requires i >= |text| && Scanned(text, i, done) && |done| <= MAX_INDICATORS
    ensures Accepted(Split(text))
    ensures Apply(mask, Split(text)) == Apply(mask, done)
  {
    if i == |text| {
      assert text[i..] == "";
      ApplySnoc(mask, done, "");
    }
  }

  /** The fields `done` have been read up to position i and turned `mask` into `mask'`. */
  ghost predicate Read(mask: set<nat>, text: string, i: nat, done: seq<string>, mask': set<nat>) {
    Scanned(text, i, done) && mask' == Apply(mask, done)
  }

  lemma ReadNothing(mask: set<nat>, text: string)
    ensures Read(mask, text, 0, [], mask)
  {
    assert text[0..] == text && [] + Split(text) == Split(text);
  }

  lemma ReadComma(mask: set<nat>, text: string, i: nat, done: seq<string>, mask': set<nat>)
    requires i < |text| && Read(mask, text, i, done, mask') && text[i] == ','
    ensures Read(mask, text, i + 1, done + [""], mask')
  {
    StepComma(text, i, done);
    ApplySnoc(mask, done, "");
  }

  lemma ReadDigit(mask: set<nat>, text: string, i: nat, done: seq<string>, mask': set<nat>)
    requires i < |text| && Read(mask, text, i, done, mask') && (text[i] == '0' || text[i] == '1')
    requires i + 1 == |text| || text[i+1] == ','
    ensures var k := |done| + 1;
            Read(mask, text, i + 2, done + [[text[i]]], if text[i] == '0' then mask' + {k} else mask' - {k})
  {
    StepDigit(text, i, done);
    ApplySnoc(mask, done, [text[i]]);
  }

  /** The list is good: all text read, within twenty fields. */
  lemma ExitGood(mask: set<nat>, arg: string, i: nat, done: seq<string>, mask': set<nat>)
    requires i >= |Kept(arg)| && Read(mask, Kept(arg), i, done, mask') && |done| <= MAX_INDICATORS
    ensures Accepted(Split(arg)) && mask' == Apply(mask, Split(arg))
  {
    Finished(mask, Kept(arg), i, done);
    KeptSuffices(arg);
  }

  /** The list is bad: the text at the scan position is not a field, or no field is left for it. */
  lemma ExitBad(mask: set<nat>, arg: string, i: nat, done: seq<string>, mask': set<nat>)
    requires i < |Kept(arg)| && Read(mask, Kept(arg), i, done, mask')
    requires var t := Kept(arg);
             || |done| == MAX_INDICATORS
             || (t[i] != ',' && ((t[i] == '0' || t[i] == '1') ==> i + 1 < |t| && t[i+1] != ','))
    ensures !Accepted(Split(arg))
  {
    if |done| == MAX_INDICATORS { LeftOver(Kept(arg), i, done); } else { StepBad(Kept(arg), i, done); }
    KeptSuffices(arg);
  }

  /** The body of the loop: reads the field at position i, or stops at the character that spoils the
      list. */
  method ReadField(arg: string, str: string, i: nat, ind: nat, now: set<nat>,
                   ghost mask: set<nat>, ghost done: seq<string>)
    returns (stop: bool, i': nat, now': set<nat>, ghost done': seq<string>)
    requires str == Buffer(arg) && i < |Kept(arg)| && ind == |done| + 1 && Read(mask, Kept(arg), i, done, now)
    requires '\0' !in arg
    ensures !stop ==> i < i' && |done'| == ind && Read(mask, Kept(arg), i', done', now')
    ensures stop ==> i' < |Kept(arg)| && !Accepted(Split(arg))
  {
    assert Kept(arg)[i] == str[i];
    if str[i] == ',' {
      ReadComma(mask, Kept(arg), i, done, now);
      return false, i + 1, now, done + [""];
    }
    if str[i] != '0' && str[i] != '1' {
      ExitBad(mask, arg, i, done, now);
      return true, i, now, done;
    }
    now' := if str[i] == '0' then now + {ind} else now - {ind};
    if str[i+1] != '\0' && str[i+1] != ',' {
      ExitBad(mask, arg, i, done, now);
      return true, i + 1, now', done;
    }
    ReadDigit(mask, Kept(arg), i, done, now);
    return false, i + 2, now', done + [[Kept(arg)[i]]];
  }

  /** Parses the indicator list. The scan steps one past the terminating NUL when the last field is
      not empty and relies on the zeroed buffer there; all accesses are in bounds. */
  method ParseBia(mask: set<nat>, arg: string) returns (ok: bool, mask': set<nat>)
    requires '\0' !in arg
    ensures ok <==> Accepted(Split(arg))
    ensures mask' == if ok then Apply(mask, Split(arg)) else mask
  {
    var str := Buffer(arg);
    ghost var done: seq<string> := [];
    var now := mask;
    var i, ind, stop := 0, 1, false;
    ReadNothing(mask, Kept(arg));
    while !stop && str[i] != '\0' && ind <= MAX_INDICATORS
      invariant 1 <= ind <= MAX_INDICATORS + 1 && 0 <= i < |str|
      invariant stop ==> i < |Kept(arg)| && !Accepted(Split(arg))
      invariant !stop ==> |done| == ind - 1 && Read(mask, Kept(arg), i, done, now)
      decreases !stop, |str| - i
    {
      stop, i, now, done := ReadField(arg, str, i, ind, now, mask, done);
      ind := ind + 1;
    }
    if str[i] == '\0' {
      ExitGood(mask, arg, i, done, now);
      return true, now;
    }
    if !stop { ExitBad(mask, arg, i, done, now); }
    return false, mask;
  }
}
