/**
 The resumable framer of the AT command interpreter (bta/ag/bta_ag_at.c, bta_ag_at_parse):
 a per-character specification, the buffered parser that implements it over arbitrary chunks,
 and what the framing guarantees end to end.
 */
module AtFramer {
  import opened AtDispatch

  const CTRL_Z: char := 0x1A as char
  const ESC: char := 0x1B as char

  predicate IsEol(c: char) { c == '\r' || c == '\n' }

  predicate IsEscape(c: char) { c == CTRL_Z || c == ESC }

  /** The text a C routine sees through a pointer to `s`: everything before the first NUL. */
  function CString(s: string): (r: string)
    ensures r <= s && '\0' !in r
    ensures |r| < |s| ==> s[|r|] == '\0'
  {
    if s == [] || s[0] == '\0' then [] else [s[0]] + CString(s[1..])
  }

  lemma {:induction false} CStringWithoutNul(s: string)
    requires '\0' !in s
    ensures CString(s) == s
  {
    if s != [] { CStringWithoutNul(s[1..]); }
  }

  // ---------------------------------------------------------------------------------------------
  // Specification: one left fold of a per-character step

  /** What the framer hands on: a command line without its "AT", or a line cut short by an escape
      character. */
  datatype Frame = AtLine(text: string) | Escaped(text: string)

  predicate HasAtPrefix(line: string) {
    && |line| > 2
    && (line[0] == 'A' || line[0] == 'a')
    && (line[1] == 'T' || line[1] == 't')
  }

  /** A full buffer is dropped only when a further character arrives. */
  function Room(max: nat, line: string): string {
    if |line| >= max - 1 then "" else line
  }

  function Step(max: nat, line: string, c: char): (string, seq<Frame>) {
    var l := Room(max, line);
    if l == "" && c == '\0' then ("", [])
    else if IsEol(c) then
      ("", if HasAtPrefix(l) then [AtLine(CString(l[2..]))] else [])
    else if IsEscape(c) then ("", [Escaped(CString(l + [c]))])
    else (l + [c], [])
  }

  function Feed(max: nat, line: string, data: string): (r: (string, seq<Frame>)) {
    if data == "" then (line, [])
    else
      var before := Feed(max, line, data[..|data|-1]);
      var last := Step(max, before.0, data[|data|-1]);
      (last.0, before.1 + last.1)
  }

  function CallbackOf(tbl: seq<Entry>, f: Frame): Callback {
    match f
    case AtLine(text) => Dispatch(tbl, text)
    case Escaped(text) => Unknown(text)
  }

  function Callbacks(tbl: seq<Entry>, fs: seq<Frame>): (r: seq<Callback>)
    ensures |r| == |fs|
    ensures forall i :: 0 <= i < |fs| ==> r[i] == CallbackOf(tbl, fs[i])
  {
    seq(|fs|, i requires 0 <= i < |fs| => CallbackOf(tbl, fs[i]))
  }

  lemma CallbacksAppend(tbl: seq<Entry>, a: seq<Frame>, b: seq<Frame>)
    ensures Callbacks(tbl, a + b) == Callbacks(tbl, a) + Callbacks(tbl, b)
  {
  }

  lemma FeedSnoc(max: nat, line: string, data: string, c: char)
    ensures var f := Feed(max, line, data);
            var s := Step(max, f.0, c);
            Feed(max, line, data + [c]) == (s.0, f.1 + s.1)
  {
    assert (data + [c])[..|data|] == data;
  }

  lemma FeedOneMore(tbl: seq<Entry>, max: nat, line: string, data: string, i: nat, k: nat)
    requires i <= k < |data|
    ensures var f := Feed(max, line, data[i..k]);
            var s := Step(max, f.0, data[k]);
            var g := Feed(max, line, data[i..k+1]);
            g.0 == s.0 && Callbacks(tbl, g.1) == Callbacks(tbl, f.1) + Callbacks(tbl, s.1)
  {
    var f := Feed(max, line, data[i..k]);
    FeedSnoc(max, line, data[i..k], data[k]);
    assert data[i..k] + [data[k]] == data[i..k+1];
    CallbacksAppend(tbl, f.1, Step(max, f.0, data[k]).1);
  }

  /** Chunking is invisible: feeding two pieces one after the other is feeding their concatenation. */
  lemma {:induction false} FeedAppend(max: nat, line: string, a: string, b: string)
    ensures var first := Feed(max, line, a);
            var second := Feed(max, first.0, b);
            Feed(max, line, a + b) == (second.0, first.1 + second.1)
  {
    if b == "" {
      assert a + b == a;
      var first := Feed(max, line, a);
      assert first.1 + [] == first.1;
    } else {
      var b', c := b[..|b|-1], b[|b|-1];
      FeedAppend(max, line, a, b');
      assert (a + b)[..|a+b|-1] == a + b' && (a + b)[|a+b|-1] == c;
      var first := Feed(max, line, a);
      var mid := Feed(max, first.0, b');
      var last := Step(max, mid.0, c);
      assert first.1 + (mid.1 + last.1) == first.1 + mid.1 + last.1;
    }
  }

  /** Dropping a full line early or late makes no difference once a character follows. */
  lemma {:induction false} FeedRoom(max: nat, line: string, data: string)
    requires max >= 2 && data != ""
    ensures Feed(max, Room(max, line), data) == Feed(max, line, data)
  {
    if |data| > 1 {
      FeedRoom(max, line, data[..|data|-1]);
    } else {
      assert data[..0] == "";
    }
  }

  // ---------------------------------------------------------------------------------------------
  // The parser control block

  class Parser {
    const table: seq<Entry>
    const cmdMaxLen: nat
    var cmdBuf: array?<char>
    var cmdPos: nat

    ghost predicate Valid()
      reads this
    {
      && cmdMaxLen >= 2
      && (cmdBuf == null ==> cmdPos == 0)
      && (cmdBuf != null ==> cmdBuf.Length == cmdMaxLen && cmdPos < cmdMaxLen)
    }

    /** The characters of the unfinished line. */
    ghost function Line(): string
      requires Valid()
      reads this, cmdBuf
    {
      if cmdBuf == null then "" else cmdBuf[..cmdPos]
    }

    constructor (table: seq<Entry>, cmdMaxLen: nat)
      requires cmdMaxLen >= 2
      ensures Valid() && Line() == "" && cmdBuf == null
      ensures this.table == table && this.cmdMaxLen == cmdMaxLen
    {
      this.table := table;
      this.cmdMaxLen := cmdMaxLen;
      cmdBuf := null;
      cmdPos := 0;
    }

    method Reinit()
      requires Valid()
      modifies this
      ensures Valid() && Line() == "" && cmdBuf == null
    {
      cmdBuf := null;
      cmdPos := 0;
    }

    /** A line terminator: the line is handed on if it begins with "AT" and goes on after it. */
    method EndLine() returns (out: seq<Callback>)
      requires Valid() && cmdBuf != null
      modifies this`cmdPos
      ensures Valid() && Line() == ""
      ensures out == if HasAtPrefix(old(Line())) then [CallbackOf(table, AtLine(CString(old(Line())[2..])))] else []
    {
      ghost var l := Line();
      out := [];
      if && cmdPos > 2
         && (cmdBuf[0] == 'A' || cmdBuf[0] == 'a')
         && (cmdBuf[1] == 'T' || cmdBuf[1] == 't') {
        assert cmdBuf[2..cmdPos] == l[2..];
        var cb := ProcessAt(table, CString(cmdBuf[2..cmdPos]));
        out := [cb];
      }
      cmdPos := 0;
    }

    /** The body of the inner loop: one character, with room for it in the buffer. */
    method Accept(c: char) returns (out: seq<Callback>)
      requires Valid() && cmdBuf != null && cmdPos < cmdMaxLen - 1
      modifies this`cmdPos, cmdBuf
      ensures Valid()
      ensures Line() == Step(cmdMaxLen, old(Line()), c).0
      ensures out == Callbacks(table, Step(cmdMaxLen, old(Line()), c).1)
    {
      ghost var l := Line();
      out := [];
      if cmdPos == 0 && c == '\0' { return; }
      cmdBuf[cmdPos] := c;
      if cmdBuf[cmdPos] == '\r' || cmdBuf[cmdPos] == '\n' {
        cmdBuf[cmdPos] := '\0';
        assert cmdBuf[..cmdPos] == l;
        out := EndLine();
      } else if cmdBuf[cmdPos] == CTRL_Z || cmdBuf[cmdPos] == ESC {
        cmdPos := cmdPos + 1;
        cmdBuf[cmdPos] := '\0';
        assert cmdBuf[..cmdPos] == l + [c];
        out := [Unknown(CString(cmdBuf[..cmdPos]))];
        cmdPos := 0;
      } else {
        cmdPos := cmdPos + 1;
        assert cmdBuf[..cmdPos] == l + [c];
      }
    }

    /** The inner loop: consume characters from position `i` while the buffer has room. */
    method Fill(data: string, i: nat) returns (k: nat, out: seq<Callback>)
      requires Valid() && cmdBuf != null && i <= |data|
      modifies this`cmdPos, cmdBuf
      ensures Valid() && i <= k <= |data|
      ensures k == |data| || cmdPos == cmdMaxLen - 1
      ensures k == i ==> cmdPos == old(cmdPos)
      ensures Line() == Feed(cmdMaxLen, old(Line()), data[i..k]).0
      ensures out == Callbacks(table, Feed(cmdMaxLen, old(Line()), data[i..k]).1)
    {
      ghost var line0 := Line();
      k, out := i, [];
      while cmdPos < cmdMaxLen - 1 && k < |data|
        invariant Valid() && i <= k <= |data|
        invariant k == i ==> cmdPos == old(cmdPos)
        invariant Line() == Feed(cmdMaxLen, line0, data[i..k]).0
        invariant out == Callbacks(table, Feed(cmdMaxLen, line0, data[i..k]).1)
        decreases |data| - k
      {
        FeedOneMore(table, cmdMaxLen, line0, data, i, k);
        var cbs := Accept(data[k]);
        out := out + cbs;
        k := k + 1;
      }
    }

    /** One chunk of input. The nested loops and the lazy discard amount to folding the
        per-character step over the chunk; every buffer access is in bounds, and the outer loop
        ends although an iteration that only discards consumes nothing. */
    method Parse(data: string) returns (out: seq<Callback>)
      requires Valid()
      modifies this, cmdBuf
      ensures Valid() && cmdBuf != null
      ensures cmdBuf == old(cmdBuf) || fresh(cmdBuf)
      ensures Line() == Feed(cmdMaxLen, old(Line()), data).0
      ensures out == Callbacks(table, Feed(cmdMaxLen, old(Line()), data).1)
    {
      ghost var line0 := Line();
      out := [];
      if cmdBuf == null {
        cmdBuf := new char[cmdMaxLen];
        cmdPos := 0;
      }
      var i := 0;
      // What the specification holds after data[..i]; the buffer may have dropped a full line ahead
      // of the next character.
      ghost var spec: (string, seq<Frame>) := (line0, []);
      while i < |data|
        invariant 0 <= i <= |data| && Valid() && cmdBuf != null
        invariant cmdBuf == old(cmdBuf) || fresh(cmdBuf)
        invariant spec == Feed(cmdMaxLen, line0, data[..i])
        invariant Line() == spec.0 || (i < |data| && Line() == Room(cmdMaxLen, spec.0))
        invariant out == Callbacks(table, spec.1)
        decreases |data| - i, if cmdPos < cmdMaxLen - 1 then 0 else 1
      {
        ghost var line := Line();
        var k, cbs := Fill(data, i);
        ghost var piece := Feed(cmdMaxLen, line, data[i..k]);
        if k > i {
          FeedRoom(cmdMaxLen, spec.0, data[i..k]);
        }
        FeedAppend(cmdMaxLen, line0, data[..i], data[i..k]);
        assert data[..i] + data[i..k] == data[..k];
        CallbacksAppend(table, spec.1, piece.1);
        out := out + cbs;
        spec := Feed(cmdMaxLen, line0, data[..k]);
        i := k;
        if i < |data| {
          cmdPos := 0;
        }
      }
      assert data[..i] == data;
    }
  }

  // ---------------------------------------------------------------------------------------------
  // What the framing guarantees

  function Concat(chunks: seq<string>): string {
    if chunks == [] then "" else Concat(chunks[..|chunks|-1]) + chunks[|chunks|-1]
  }

  /** A stream delivered in any chunks gives the callbacks of the undivided stream. */
  method ParseChunks(p: Parser, chunks: seq<string>) returns (out: seq<Callback>)
    requires p.Valid()
    modifies p, p.cmdBuf
    ensures p.Valid()
    ensures p.Line() == Feed(p.cmdMaxLen, old(p.Line()), Concat(chunks)).0
    ensures out == Callbacks(p.table, Feed(p.cmdMaxLen, old(p.Line()), Concat(chunks)).1)
  {
    ghost var line0 := p.Line();
    out := [];
    for n := 0 to |chunks|
      invariant p.Valid() && (p.cmdBuf == old(p.cmdBuf) || fresh(p.cmdBuf))
      invariant p.Line() == Feed(p.cmdMaxLen, line0, Concat(chunks[..n])).0
      invariant out == Callbacks(p.table, Feed(p.cmdMaxLen, line0, Concat(chunks[..n])).1)
    {
      FeedAppend(p.cmdMaxLen, line0, Concat(chunks[..n]), chunks[n]);
      CallbacksAppend(p.table, Feed(p.cmdMaxLen, line0, Concat(chunks[..n])).1,
                      Feed(p.cmdMaxLen, p.Line(), chunks[n]).1);
      assert chunks[..n+1][..n] == chunks[..n];
      var cbs := p.Parse(chunks[n]);
      out := out + cbs;
    }
    assert chunks[..|chunks|] == chunks;
  }

  /** A command text that survives framing: no terminator, escape or NUL in it. */
  predicate Plain(body: string) {
    forall c :: c in body ==> c != '\0' && !IsEol(c) && !IsEscape(c)
  }

  function Render(body: string): string { "AT" + body + "\r" }

  function RenderAll(bodies: seq<string>): string {
    if bodies == [] then "" else RenderAll(bodies[..|bodies|-1]) + Render(bodies[|bodies|-1])
  }

  /** While there is room, plain characters just accumulate. */
  lemma {:induction false} PlainAccumulates(max: nat, line: string, text: string)
    requires Plain(text) && |line| + |text| <= max - 1
    ensures Feed(max, line, text) == (line + text, [])
  {
    if text == "" {
      assert line + text == line;
    } else {
      var t', c := text[..|text|-1], text[|text|-1];
      assert c in text && forall d :: d in t' ==> d in text;
      PlainAccumulates(max, line, t');
      FeedSnoc(max, line, t', c);
      assert t' + [c] == text;
      var l, none: seq<Frame> := line + t', [];
      assert Step(max, l, c) == (l + [c], none) && none + none == none;
      assert l + [c] == line + text;
    }
  }

  predicate Fits(max: nat, body: string) {
    body != "" && Plain(body) && |body| <= max - 4
  }

  lemma PlainCommand(body: string)
    requires Plain(body)
    ensures Plain("AT" + body)
  {
    forall c | c in "AT" + body ensures c != '\0' && !IsEol(c) && !IsEscape(c) {
      if c !in body { assert c == 'A' || c == 'T'; }
    }
  }

  lemma CommandEnds(max: nat, body: string)
    requires Fits(max, body)
    ensures Step(max, "AT" + body, '\r') == ("", [AtLine(body)])
  {
    var text := "AT" + body;
    CStringWithoutNul(body);
    assert text[2..] == body;
    assert Room(max, text) == text && HasAtPrefix(text);
  }

  lemma FrameThatFits(max: nat, body: string)
    requires Fits(max, body)
    ensures Feed(max, "", Render(body)) == ("", [AtLine(body)])
  {
    PlainCommand(body);
    CommandEnds(max, body);
    LineThenEnd(max, "AT" + body, [AtLine(body)]);
  }

  lemma LineThenEnd(max: nat, text: string, fs: seq<Frame>)
    requires Plain(text) && |text| <= max - 1 && Step(max, text, '\r') == ("", fs)
    ensures Feed(max, "", text + "\r") == ("", fs)
  {
    var nothing := "";
    PlainAccumulates(max, nothing, text);
    FeedSnoc(max, nothing, text, '\r');
    assert nothing + text == text;
    assert [] + fs == fs;
  }

  /** A rendered command is framed as exactly its text if and only if it fits the buffer together
      with its "AT" and terminator. */
  lemma FrameRoundTrip(max: nat, body: string)
    requires max >= 2 && Plain(body) && body != ""
    ensures Feed(max, "", Render(body)) == ("", [AtLine(body)]) <==> |body| <= max - 4
  {
    if |body| <= max - 4 {
      FrameThatFits(max, body);
    } else {
      LinesFit(max, "", Render(body));
      assert AtLine(body) in [AtLine(body)];
    }
  }

  /** No command text longer than the buffer allows is ever handed on. */
  lemma {:induction false} LinesFit(max: nat, line: string, data: string)
    requires max >= 2
    ensures forall f :: f in Feed(max, line, data).1 && f.AtLine? ==> |f.text| <= max - 4
  {
    if data != "" {
      var d', c := data[..|data|-1], data[|data|-1];
      LinesFit(max, line, d');
      FeedSnoc(max, line, d', c);
      assert d' + [c] == data;
    }
  }

  function AtLines(bodies: seq<string>): (r: seq<Frame>)
    ensures |r| == |bodies|
    ensures forall i :: 0 <= i < |bodies| ==> r[i] == AtLine(bodies[i])
  {
    seq(|bodies|, i requires 0 <= i < |bodies| => AtLine(bodies[i]))
  }

  lemma AtLinesSnoc(bodies: seq<string>, last: string)
    ensures AtLines(bodies + [last]) == AtLines(bodies) + [AtLine(last)]
    ensures RenderAll(bodies + [last]) == RenderAll(bodies) + Render(last)
  {
    assert (bodies + [last])[..|bodies|] == bodies;
  }

  /** A stream already framed, followed by one more command that fits. */
  lemma OneMoreCommand(max: nat, data: string, fs: seq<Frame>, body: string)
    requires Feed(max, "", data) == ("", fs)
    requires Fits(max, body)
    ensures Feed(max, "", data + Render(body)) == ("", fs + [AtLine(body)])
  {
    FrameThatFits(max, body);
    FeedAppend(max, "", data, Render(body));
  }

  /** Any list of commands that fit, rendered back to back, is framed one for one and in order. */
  lemma {:induction false} StreamRoundTrip(max: nat, bodies: seq<string>)
    requires forall b :: b in bodies ==> Fits(max, b)
    ensures Feed(max, "", RenderAll(bodies)) == ("", AtLines(bodies))
  {
    if bodies != [] {
      var init, last := bodies[..|bodies|-1], bodies[|bodies|-1];
      assert last in bodies && forall b :: b in init ==> b in bodies;
      StreamRoundTrip(max, init);
      OneMoreCommand(max, RenderAll(init), AtLines(init), last);
      AtLinesSnoc(init, last);
      assert init + [last] == bodies;
    } else {
      assert AtLines(bodies) == [];
    }
  }

  /** End to end: commands that fit, sent back to back and delivered in any chunks to an idle
      parser, cause exactly one callback each, in order, and leave the parser idle. */
  method Session(p: Parser, chunks: seq<string>, bodies: seq<string>) returns (out: seq<Callback>)
    requires p.Valid() && p.Line() == ""
    requires forall b :: b in bodies ==> Fits(p.cmdMaxLen, b)
    requires Concat(chunks) == RenderAll(bodies)
    modifies p, p.cmdBuf
    ensures p.Valid() && p.Line() == ""
    ensures |out| == |bodies|
    ensures forall i :: 0 <= i < |bodies| ==> out[i] == Dispatch(p.table, bodies[i])
  {
    StreamRoundTrip(p.cmdMaxLen, bodies);
    out := ParseChunks(p, chunks);
  }

  /** Resynchronisation: after any garbage, one line end makes every following command that fits
      come through intact. */
  lemma Resynchronises(max: nat, line: string, garbage: string, eol: char, bodies: seq<string>)
    requires (eol == '\r' || eol == '\n') && forall b :: b in bodies ==> Fits(max, b)
    ensures var noise := Feed(max, line, garbage + [eol]);
            Feed(max, line, garbage + [eol] + RenderAll(bodies)) == ("", noise.1 + AtLines(bodies))
  {
    FeedSnoc(max, line, garbage, eol);
    assert Feed(max, line, garbage + [eol]).0 == "";
    StreamRoundTrip(max, bodies);
    FeedAppend(max, line, garbage + [eol], RenderAll(bodies));
  }

  /** A plain line followed by one character. */
  lemma LineThen(max: nat, text: string, c: char, line: string, fs: seq<Frame>)
    requires Plain(text) && |text| <= max - 1 && Step(max, text, c) == (line, fs)
    ensures Feed(max, "", text + [c]) == (line, fs)
  {
    var nothing := "";
    PlainAccumulates(max, nothing, text);
    FeedSnoc(max, nothing, text, c);
    assert nothing + text == text;
    assert [] + fs == fs;
  }

  /** A line that does not begin with "AT", in either case, or that ends right after it, is dropped. */
  lemma OthersDropped(max: nat, text: string, eol: char)
    requires Plain(text) && |text| < max - 1 && (eol == '\r' || eol == '\n')
    ensures var cmd := |text| > 2 && text[0] in {'A', 'a'} && text[1] in {'T', 't'};
            Feed(max, "", text + [eol]) == ("", if cmd then [AtLine(text[2..])] else [])
  {
    if |text| > 2 {
      forall c | c in text[2..] ensures c in text { }
      CStringWithoutNul(text[2..]);
    }
    assert Room(max, text) == text;
    LineThen(max, text, eol, "", if HasAtPrefix(text) then [AtLine(text[2..])] else []);
  }

  /** Control-Z and escape end a line whatever it holds: the line goes to the error callback with them. */
  lemma EscapesReported(max: nat, text: string, esc: char)
    requires Plain(text) && |text| < max - 1 && (esc == 0x1A as char || esc == 0x1B as char)
    ensures Feed(max, "", text + [esc]) == ("", [Escaped(text + [esc])])
  {
    CStringWithoutNul(text + [esc]);
    LineThen(max, text, esc, "", [Escaped(text + [esc])]);
  }

  function Nuls(k: nat): string { if k == 0 then "" else Nuls(k - 1) + ['\0'] }

  /** NUL characters between lines are skipped. */
  lemma {:induction false} NulsSkipped(max: nat, k: nat, data: string)
    requires max >= 2
    ensures Feed(max, "", Nuls(k) + data) == Feed(max, "", data)
  {
    var rest := Feed(max, "", data);
    OnlyNuls(max, k);
    FeedAppend(max, "", Nuls(k), data);
    assert [] + rest.1 == rest.1;
  }

  lemma {:induction false} OnlyNuls(max: nat, k: nat)
    requires max >= 2
    ensures Feed(max, "", Nuls(k)) == ("", [])
  {
    if k > 0 {
      var none: seq<Frame> := [];
      OnlyNuls(max, k - 1);
      FeedSnoc(max, "", Nuls(k - 1), '\0');
      assert none + none == none;
    }
  }

  /** A line that fills the buffer is thrown away with the character that finds no room, which starts a new
      line. */
  lemma OverflowDropped(max: nat, text: string, c: char)
    requires Plain(text) && Plain([c]) && |text| == max - 1 && max >= 2
    ensures Feed(max, "", text + [c]) == ([c], [])
  {
    assert c in [c] && "" + [c] == [c];
    LineThen(max, text, c, [c], []);
  }

  /** What the callbacks are: the dispatcher's for a command, the error callback with the text for an escape. */
  lemma CallbacksExactly(tbl: seq<Entry>, text: string)
    ensures CallbackOf(tbl, AtLine(text)) == Dispatch(tbl, text) && CallbackOf(tbl, Escaped(text)) == Unknown(text)
  {
  }
}
