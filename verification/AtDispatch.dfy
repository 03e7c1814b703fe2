/**
 The table-driven half of the AT command interpreter (bta/ag/bta_ag_at.c, bta_ag_process_at) and
 the two string utilities it leans on (bta/sys/utl.c). Text is a sequence of characters without
 the terminating NUL.
 */
module AtDispatch {

  /** Argument syntaxes; a table entry lists the ones it allows. */
  datatype ArgKind = NoArg | SetArg | ReadArg | TestArg | FreeArg

  datatype Entry = Entry(cmd: string, kinds: set<ArgKind>, isInt: bool, min: int, max: int)

  /** What the interpreter reports upwards: the command callback, the error callback without text
      (argument refused) or the error callback with the unrecognised text. */
  datatype Callback =
    | Command(idx: nat, kind: ArgKind, arg: string, intArg: int)
    | Refused
    | Unknown(text: string)

  const MAX_INT16 := 32767

  // ---------------------------------------------------------------------------------------------
  // utl_strucmp: the table text must be a prefix of the upper-cased input

  function Upper(c: char): char {
    if 'a' <= c <= 'z' then (c as int - 0x20) as char else c
  }

  function UpperAll(s: string): (r: string)
    ensures |r| == |s|
    ensures forall i :: 0 <= i < |s| ==> r[i] == Upper(s[i])
  {
    seq(|s|, i requires 0 <= i < |s| => Upper(s[i]))
  }

  predicate Matches(cmd: string, text: string) {
    cmd <= UpperAll(text)
  }

  method StrUCmp(cmd: string, text: string) returns (differs: bool)
    ensures differs <==> !Matches(cmd, text)
  {
    var i := 0;
    while i < |cmd| && i < |text|
      invariant 0 <= i <= |cmd| && i <= |text|
      invariant cmd[..i] == UpperAll(text)[..i]
    {
      if cmd[i] != Upper(text[i]) {
        assert cmd[i] != UpperAll(text)[i];
        return true;
      }
      i := i + 1;
    }
    differs := i == |text| && i < |cmd|;
    assert !differs ==> cmd[..i] == cmd;
  }

  // ---------------------------------------------------------------------------------------------
  // utl_str2int: a 16-bit decimal with leading blanks, or -1

  predicate IsDigit(c: char) { '0' <= c <= '9' }

  predicate AllDigits(s: string) { forall c :: c in s ==> IsDigit(c) }

  function StripBlanks(s: string): string {
    if s != [] && s[0] == ' ' then StripBlanks(s[1..]) else s
  }

  /** Positional value of a digit string. */
  function Value(s: string): nat
    requires AllDigits(s)
  {
    if s == [] then 0
    else
      assert s[|s|-1] in s;
      10 * Value(s[..|s|-1]) + (s[|s|-1] as int - '0' as int)
  }

  lemma {:induction false} ValueOfPrefix(s: string, n: nat)
    requires AllDigits(s) && n <= |s|
    ensures Value(s[..n]) <= Value(s)
  {
    if n == |s| {
      assert s[..n] == s;
    } else {
      ValueOfPrefix(s[..|s|-1], n);
      assert s[..|s|-1][..n] == s[..n];
      assert s[|s|-1] in s;
    }
  }

  function IntArg(s: string): int {
    var t := StripBlanks(s);
    if t != [] && AllDigits(t) && Value(t) <= MAX_INT16 then Value(t) else -1
  }

  method Str2Int(s: string) returns (r: int)
    ensures r == IntArg(s)
  {
    var i := 0;
    while i < |s| && s[i] == ' '
      invariant 0 <= i <= |s|
      invariant StripBlanks(s[i..]) == StripBlanks(s)
    {
      i := i + 1;
    }
    assert StripBlanks(s) == s[i..];
    if i == |s| { return -1; }
    r := DigitsValue(s[i..]);
  }

  /** The digit loop of utl_str2int: it gives up at the first character that is no digit and as soon as
      the number is out of range. */
  method DigitsValue(t: string) returns (r: int)
    ensures r == if AllDigits(t) && Value(t) <= MAX_INT16 then Value(t) else -1
  {
    r := 0;
    for k := 0 to |t|
      invariant AllDigits(t[..k]) && r == Value(t[..k]) <= MAX_INT16
    {
      if t[k] < '0' || '9' < t[k] {
        assert t[k] in t;
        return -1;
      }
      assert t[..k+1][..k] == t[..k];
      r := 10 * r + (t[k] as int - '0' as int);
      if r > MAX_INT16 {
        if AllDigits(t) { ValueOfPrefix(t, k + 1); }
        return -1;
      }
    }
    assert t[..|t|] == t;
  }

  // ---------------------------------------------------------------------------------------------
  // bta_ag_process_at

  /** `i` is the first entry that matches: the entry a linear scan of the table stops at. */
  predicate FirstMatch(tbl: seq<Entry>, text: string, i: nat) {
    && i < |tbl|
    && Matches(tbl[i].cmd, text)
    && forall j :: 0 <= j < i ==> !Matches(tbl[j].cmd, text)
  }

  /** Classifies the text after the command name; a set drops its '='. */
  function Classify(rest: string): (ArgKind, string) {
    if rest == "" then (NoArg, rest)
    else if rest == "?" then (ReadArg, rest)
    else if rest == "=?" then (TestArg, rest)
    else if rest[0] == '=' && |rest| > 1 then (SetArg, rest[1..])
    else (FreeArg, rest)
  }

  function Report(tbl: seq<Entry>, i: nat, text: string): Callback
    requires i < |tbl| && Matches(tbl[i].cmd, text)
  {
    var e := tbl[i];
    var (kind, arg) := Classify(text[|e.cmd|..]);
    if kind !in e.kinds then Refused
    else if kind == SetArg && e.isInt then
      var n := IntArg(arg);
      if n < e.min || n > e.max then Refused else Command(i, kind, arg, n)
    else Command(i, kind, arg, 0)
  }

  function Scan(tbl: seq<Entry>, text: string, from: nat): (r: nat)
    requires from <= |tbl|
    requires forall j :: 0 <= j < from ==> !Matches(tbl[j].cmd, text)
    ensures r <= |tbl|
    ensures r < |tbl| ==> FirstMatch(tbl, text, r)
    ensures r == |tbl| ==> forall j :: 0 <= j < |tbl| ==> !Matches(tbl[j].cmd, text)
    decreases |tbl| - from
  {
    if from == |tbl| || Matches(tbl[from].cmd, text) then from else Scan(tbl, text, from + 1)
  }

  function Dispatch(tbl: seq<Entry>, text: string): Callback {
    var i := Scan(tbl, text, 0);
    if i < |tbl| then Report(tbl, i, text) else Unknown(text)
  }

  method ProcessAt(tbl: seq<Entry>, text: string) returns (cb: Callback)
    ensures cb == Dispatch(tbl, text)
    ensures cb.Unknown? <==> forall j :: 0 <= j < |tbl| ==> !Matches(tbl[j].cmd, text)
    ensures cb.Unknown? ==> cb.text == text
    ensures cb.Command? ==> FirstMatch(tbl, text, cb.idx) && cb.kind in tbl[cb.idx].kinds
  {
    var idx := 0;
    while idx < |tbl|
      invariant 0 <= idx <= |tbl|
      invariant forall j :: 0 <= j < idx ==> !Matches(tbl[j].cmd, text)
      invariant Scan(tbl, text, 0) == Scan(tbl, text, idx)
    {
      var differs := StrUCmp(tbl[idx].cmd, text);
      if !differs { break; }
      idx := idx + 1;
    }
    if idx == |tbl| {
      return Unknown(text);
    }
    var arg := text[|tbl[idx].cmd|..];
    var kind;
    if |arg| == 0 {
      kind := NoArg;
    } else if arg[0] == '?' && |arg| == 1 {
      kind := ReadArg;
    } else if arg[0] == '=' && |arg| > 1 {
      if arg[1] == '?' && |arg| == 2 {
        kind := TestArg;
      } else {
        kind := SetArg;
        arg := arg[1..];
      }
    } else {
      kind := FreeArg;
    }
    if kind !in tbl[idx].kinds {
      cb := Refused;
    } else if kind == SetArg && tbl[idx].isInt {
      var n := Str2Int(arg);
      cb := if n < tbl[idx].min || n > tbl[idx].max then Refused else Command(idx, kind, arg, n);
    } else {
      cb := Command(idx, kind, arg, 0);
    }
  }

  /** Letters of either case match a capital in the table; anything else matches only itself. */
  lemma MatchesExactly(cmd: string, text: string)
    ensures Matches(cmd, text) <==>
              && |cmd| <= |text|
              && forall i :: 0 <= i < |cmd| ==>
                   if 'a' <= text[i] <= 'z' then text[i] as int - 'a' as int == cmd[i] as int - 'A' as int
                   else text[i] == cmd[i]
  {
    if Matches(cmd, text) { assert forall i :: 0 <= i < |cmd| ==> cmd[i] == UpperAll(text)[i]; }
  }

  /** Which numbers a set argument stands for: blanks, then at least one digit and nothing else, up to the
      largest 16-bit number. */
  lemma {:induction false} IntArgExactly(x: string, k: nat)
    requires k <= |x| && (forall i :: 0 <= i < k ==> x[i] == ' ') && (k < |x| ==> x[k] != ' ')
    ensures var digits := x[k..];
            IntArg(x) == if digits != "" && AllDigits(digits) && Value(digits) <= 32767 then Value(digits) else -1
  {
    if k > 0 {
      IntArgExactly(x[1..], k - 1);
      assert x[1..][k-1..] == x[k..];
    }
  }

  /** What becomes of the entry that matches, by what follows the command: nothing, "?", "=?", "=" with an
      argument, or free text. The kind must be one the entry allows; a set for an integer entry must be a number
      within its range and is handed on with it. */
  lemma ReportExactly(tbl: seq<Entry>, text: string, i: nat, rest: string)
    requires FirstMatch(tbl, text, i) && rest == text[|tbl[i].cmd|..]
    ensures var e, cb := tbl[i], Dispatch(tbl, text);
            && (rest == "" ==> cb == if NoArg in e.kinds then Command(i, NoArg, "", 0) else Refused)
            && (rest == "?" ==> cb == if ReadArg in e.kinds then Command(i, ReadArg, "?", 0) else Refused)
            && (rest == "=?" ==> cb == if TestArg in e.kinds then Command(i, TestArg, "=?", 0) else Refused)
            && (|rest| >= 2 && rest[0] == '=' && rest != "=?" ==>
                  var x, n := rest[1..], IntArg(rest[1..]);
                  cb == if SetArg !in e.kinds || (e.isInt && !(e.min <= n <= e.max)) then Refused
                        else Command(i, SetArg, x, if e.isInt then n else 0))
            && (rest != "" && rest != "?" && (rest[0] != '=' || |rest| == 1) ==>
                  cb == if FreeArg in e.kinds then Command(i, FreeArg, rest, 0) else Refused)
  {
    assert rest == "=?" ==> rest[0] == '=' && rest[1] == '?';
  }

  // ---------------------------------------------------------------------------------------------
  // The two command tables

  const HSP_TABLE: seq<Entry> := [
    Entry("+CKPD", {SetArg}, true, 200, 200),
    Entry("+VGS", {SetArg}, true, 0, 15),
    Entry("+VGM", {SetArg}, true, 0, 15)
  ]

  const HFP_TABLE: seq<Entry> := [
    Entry("A", {NoArg}, false, 0, 0),
    Entry("D", {NoArg, FreeArg}, false, 0, 0),
    Entry("+VGS", {SetArg}, true, 0, 15),
    Entry("+VGM", {SetArg}, true, 0, 15),
    Entry("+CCWA", {SetArg}, true, 0, 1),
    Entry("+CHLD", {SetArg, TestArg}, false, 0, 4),
    Entry("+CHUP", {NoArg}, false, 0, 0),
    Entry("+CIND", {ReadArg, TestArg}, false, 0, 0),
    Entry("+CLIP", {SetArg}, true, 0, 1),
    Entry("+CMER", {SetArg}, false, 0, 0),
    Entry("+VTS", {SetArg}, false, 0, 0),
    Entry("+BINP", {SetArg}, true, 1, 1),
    Entry("+BLDN", {NoArg}, false, 0, 0),
    Entry("+BVRA", {SetArg}, true, 0, 1),
    Entry("+BRSF", {SetArg}, true, 0, MAX_INT16),
    Entry("+NREC", {SetArg}, true, 0, 0),
    Entry("+CNUM", {NoArg}, false, 0, 0),
    Entry("+BTRH", {ReadArg, SetArg}, true, 0, 2),
    Entry("+CLCC", {NoArg}, false, 0, 0),
    Entry("+COPS", {ReadArg, SetArg}, false, 0, 0),
    Entry("+CMEE", {SetArg}, true, 0, 1),
    Entry("+BIA", {SetArg}, false, 0, 20),
    Entry("+CBC", {SetArg}, true, 0, 100),
    Entry("+BCC", {NoArg}, false, 0, 0),
    Entry("+BCS", {SetArg}, true, 0, MAX_INT16),
    Entry("+BAC", {SetArg}, false, 0, 0),
    Entry("+BIND", {SetArg, ReadArg, TestArg}, false, 0, 0),
    Entry("+BIEV", {SetArg}, false, 0, 0)
  ]

  /** No entry is a prefix of another one. */
  predicate PrefixFree(tbl: seq<Entry>) {
    forall i, j :: 0 <= i < |tbl| && 0 <= j < |tbl| && i != j ==> !(tbl[i].cmd <= tbl[j].cmd)
  }

  lemma PrefixesNest(a: string, b: string, u: string)
    requires a <= u && b <= u
    ensures a <= b || b <= a
  {
    if |a| <= |b| {
      assert a == b[..|a|];
    } else {
      assert b == a[..|b|];
    }
  }

  /** In a prefix-free table the order of the entries is irrelevant: whichever entry matches is
      the only one that does, and it decides the report. */
  lemma PrefixFreeDispatch(tbl: seq<Entry>, text: string, i: nat)
    requires PrefixFree(tbl)
    requires i < |tbl| && Matches(tbl[i].cmd, text)
    ensures forall j :: 0 <= j < |tbl| && Matches(tbl[j].cmd, text) ==> j == i
    ensures Dispatch(tbl, text) == Report(tbl, i, text)
  {
    forall j | 0 <= j < |tbl| && Matches(tbl[j].cmd, text)
      ensures j == i
    {
      PrefixesNest(tbl[i].cmd, tbl[j].cmd, UpperAll(text));
    }
  }

  /** Reads off, from the first few characters of a text, the only HFP entry that can be a prefix
      of it (or -1): the table arranged as a decision tree. */
  function HfpTrie(t: string): int {
    if |t| == 0 then -1
    else if t[0] == 'A' then 0
    else if t[0] == 'D' then 1
    else if |t| < 4 then -1
    else HfpTrie4(t[1], t[2], t[3], if |t| > 4 then t[4] else ' ')
  }

  function HfpTrie4(a: char, b: char, c: char, d: char): int {
    if a == 'V' then
      if b == 'T' then 10 else if c == 'S' then 2 else 3
    else if a == 'N' then 15
    else if a == 'C' then
      if b == 'B' then 22 else if b == 'C' then 4 else if b == 'O' then 19
      else if b == 'I' then 7 else if b == 'N' then 16
      else if b == 'H' then (if c == 'L' then 5 else 6)
      else if b == 'L' then (if c == 'I' then 8 else 18)
      else if d == 'R' then 9 else 20
    else
      if b == 'L' then 12 else if b == 'V' then 13 else if b == 'R' then 14
      else if b == 'T' then 17 else if b == 'A' then 25
      else if b == 'C' then (if c == 'C' then 23 else 24)
      else if c == 'A' then 21 else if c == 'E' then 27
      else if d == 'P' then 11 else 26
  }

  lemma HfpTrieFindsLow(i: nat, t: string)
    requires i < 9 && HFP_TABLE[i].cmd <= t
    ensures HfpTrie(t) == i
  {
    var cmd := HFP_TABLE[i].cmd;
    assert forall k :: 0 <= k < |cmd| ==> cmd[k] == t[k];
  }

  lemma HfpTrieFindsMiddle(i: nat, t: string)
    requires 9 <= i < 18 && HFP_TABLE[i].cmd <= t
    ensures HfpTrie(t) == i
  {
    var cmd := HFP_TABLE[i].cmd;
    assert forall k :: 0 <= k < |cmd| ==> cmd[k] == t[k];
  }

  lemma HfpTrieFindsHigh(i: nat, t: string)
    requires 18 <= i < |HFP_TABLE| && HFP_TABLE[i].cmd <= t
    ensures HfpTrie(t) == i
  {
    var cmd := HFP_TABLE[i].cmd;
    assert forall k :: 0 <= k < |cmd| ==> cmd[k] == t[k];
  }

  lemma HfpTrieFinds(i: nat, t: string)
    requires i < |HFP_TABLE| && HFP_TABLE[i].cmd <= t
    ensures HfpTrie(t) == i
  {
    if i < 9 {
      HfpTrieFindsLow(i, t);
    } else if i < 18 {
      HfpTrieFindsMiddle(i, t);
    } else {
      HfpTrieFindsHigh(i, t);
    }
  }

  lemma HfpTablePrefixFree()
    ensures PrefixFree(HFP_TABLE)
  {
    forall i, j | 0 <= i < |HFP_TABLE| && 0 <= j < |HFP_TABLE| && i != j
      ensures !(HFP_TABLE[i].cmd <= HFP_TABLE[j].cmd)
    {
      HfpTrieFinds(j, HFP_TABLE[j].cmd);
      if HFP_TABLE[i].cmd <= HFP_TABLE[j].cmd { HfpTrieFinds(i, HFP_TABLE[j].cmd); }
    }
  }

  lemma HspTablePrefixFree()
    ensures PrefixFree(HSP_TABLE)
  {
    forall i, j | 0 <= i < |HSP_TABLE| && 0 <= j < |HSP_TABLE| && i != j
      ensures !(HSP_TABLE[i].cmd <= HSP_TABLE[j].cmd)
    {
      assert HSP_TABLE[0].cmd[1] == 'C' && HSP_TABLE[1].cmd[1] == 'V' && HSP_TABLE[2].cmd[1] == 'V';
      assert HSP_TABLE[1].cmd[3] != HSP_TABLE[2].cmd[3];
    }
  }

  /** In both of the gateway's tables at most one entry matches any text, so the order in which the tables
      list their commands cannot matter. */
  lemma AtMostOneCommand(text: string, i: nat, j: nat)
    ensures i < |HFP_TABLE| && j < |HFP_TABLE| && Matches(HFP_TABLE[i].cmd, text) && Matches(HFP_TABLE[j].cmd, text)
            ==> i == j
    ensures i < |HSP_TABLE| && j < |HSP_TABLE| && Matches(HSP_TABLE[i].cmd, text) && Matches(HSP_TABLE[j].cmd, text)
            ==> i == j
  {
    HfpTablePrefixFree();
    HspTablePrefixFree();
    if i < |HFP_TABLE| && Matches(HFP_TABLE[i].cmd, text) { PrefixFreeDispatch(HFP_TABLE, text, i); }
    if i < |HSP_TABLE| && Matches(HSP_TABLE[i].cmd, text) { PrefixFreeDispatch(HSP_TABLE, text, i); }
  }
}
