// observability/artifacts.py and RunManager.read_artifact_events: the events.jsonl file
// as bytes, the repair of a torn tail on restart, appends that a crash may cut at any
// byte, and the replay that reads the file back.
module EventLog {
  import opened Events

  type Byte = b: int | 0 <= b < 256
  type Bytes = seq<Byte>

  const NEWLINE: Byte := 10
  const RETURN: Byte := 13

  // JSON in and out, as parameters: the serialiser of one event and the parser of one line.
  datatype Codec = Codec(serialise: Event -> Bytes, parse: Bytes -> Option<Event>)

  predicate IsSpace(b: Byte) {
    b == 32 || 9 <= b <= 13
  }

  predicate Blank(line: Bytes) {
    forall i :: 0 <= i < |line| ==> IsSpace(line[i])
  }

  predicate OneLine(line: Bytes) {
    NEWLINE !in line && RETURN !in line && !Blank(line)
  }

  // What JSON guarantees: an event fits one line and parses back to itself.
  ghost predicate Lossless(codec: Codec) {
    forall e: Event {:trigger codec.serialise(e)} ::
      OneLine(codec.serialise(e)) && codec.parse(codec.serialise(e)) == Some(e)
  }

  // --- the file, read ---

  // Length of the part of raw up to and including its last newline.
  function WholeLength(raw: Bytes): (n: nat)
    ensures n <= |raw|
    ensures n > 0 ==> raw[n - 1] == NEWLINE
    ensures NEWLINE !in raw[n..]
  {
    if raw == [] then 0
    else if raw[|raw| - 1] == NEWLINE then |raw|
    else
      var n := WholeLength(raw[..|raw| - 1]);
      assert raw[n..] == raw[..|raw| - 1][n..] + [raw[|raw| - 1]];
      n
  }

  function Whole(raw: Bytes): Bytes {
    raw[..WholeLength(raw)]
  }

  function CountNewlines(raw: Bytes): nat {
    if raw == [] then 0 else (if raw[0] == NEWLINE then 1 else 0) + CountNewlines(raw[1..])
  }

  // Index of the first line break, or |raw|.
  function FirstBreak(raw: Bytes): (i: nat)
    ensures i <= |raw|
    ensures forall j :: 0 <= j < i ==> raw[j] != NEWLINE && raw[j] != RETURN
    ensures i < |raw| ==> raw[i] == NEWLINE || raw[i] == RETURN
  {
    if raw == [] || raw[0] == NEWLINE || raw[0] == RETURN then 0 else 1 + FirstBreak(raw[1..])
  }

  // bytes.splitlines: breaks at "\n", "\r" and "\r\n", no empty line at the end.
  function SplitLines(raw: Bytes): seq<Bytes>
    decreases |raw|
  {
    if raw == [] then []
    else
      var i := FirstBreak(raw);
      if i == |raw| then [raw]
      else
        var width := if raw[i] == RETURN && i + 1 < |raw| && raw[i + 1] == NEWLINE then 2 else 1;
        [raw[..i]] + SplitLines(raw[i + width..])
  }

  // Blank and unparsable lines are skipped, and so is everything up to `after`.
  function ParseLines(codec: Codec, lines: seq<Bytes>, after: int): seq<Event> {
    if lines == [] then []
    else
      var rest := ParseLines(codec, lines[1..], after);
      if Blank(lines[0]) then rest
      else
        match codec.parse(lines[0])
        case None => rest
        case Some(e) => if e.sequence > after then [e] + rest else rest
  }

  // read_artifact_events on a file with contents raw.
  function Replay(codec: Codec, raw: Bytes, after: int): seq<Event> {
    var n := WholeLength(raw);
    ParseLines(codec, SplitLines(raw[..if n == 0 then 0 else n - 1]), after)
  }

  // --- the file, written ---

  function Line(codec: Codec, e: Event): Bytes {
    codec.serialise(e) + [NEWLINE]
  }

  function Encode(codec: Codec, log: seq<Event>): Bytes {
    if log == [] then [] else Line(codec, log[0]) + Encode(codec, log[1..])
  }

  // The class of files the writer produces: the lines of a well-numbered log, then
  // possibly a torn line.
  ghost predicate Holds(codec: Codec, raw: Bytes, log: seq<Event>) {
    Numbered(log) && Whole(raw) == Encode(codec, log)
  }

  // --- one process writing, killed and restarted ---

  // next is the numbering a live process continues with; None while no process runs.
  datatype Disk = Disk(raw: Bytes, next: Option<nat>)

  datatype Action =
    | Restart                                  // next_sequence() runs to its end
    | Append(name: string, body: string)       // record_event() runs to its end
    | TornAppend(e: Event, cut: nat)           // the process is killed after `cut` bytes of the line
    | TornRepair(cut: nat)                     // killed after `cut` bytes of the repair's rewrite
    | Kill                                     // killed between writes

  function Repaired(raw: Bytes): (Bytes, nat) {
    var n := WholeLength(raw);
    (raw[..n], CountNewlines(raw[..n]))
  }

  function Cut(b: Bytes, cut: nat): Bytes {
    if cut < |b| then b[..cut] else b
  }

  function Apply(codec: Codec, d: Disk, a: Action): Disk {
    match a
    case Restart => if d.next.Some? then d else var (raw, n) := Repaired(d.raw); Disk(raw, Some(n))
    case Append(name, body) =>
      if d.next.None? then d
      else Disk(d.raw + Line(codec, Event(d.next.value, name, body)), Some(d.next.value + 1))
    case TornAppend(e, cut) =>
      if d.next.None? || e.sequence != d.next.value then d
      else Disk(d.raw + Cut(Line(codec, e), cut), None)
    case TornRepair(cut) =>
      // open("wb") empties the file before the whole lines are written back; without a
      // torn tail nothing is rewritten
      if d.next.Some? || WholeLength(d.raw) == |d.raw| then d else Disk(Cut(Whole(d.raw), cut), None)
    case Kill => d.(next := None)
  }

  function Exec(codec: Codec, actions: seq<Action>): Disk {
    if actions == [] then Disk([], None)
    else Apply(codec, Exec(codec, actions[..|actions| - 1]), actions[|actions| - 1])
  }

  // --- the file as lines ---

  lemma {:induction false} WholeOfConcat(a: Bytes, b: Bytes)
    requires a == [] || a[|a| - 1] == NEWLINE
    ensures WholeLength(a + b) == |a| + WholeLength(b)
  {
    if b == [] {
      assert a + b == a;
    } else {
      assert (a + b)[..|a + b| - 1] == a + b[..|b| - 1];
      if b[|b| - 1] != NEWLINE {
        WholeOfConcat(a, b[..|b| - 1]);
      }
    }
  }

  lemma {:induction false} NoNewlineNoWhole(a: Bytes)
    requires NEWLINE !in a
    ensures WholeLength(a) == 0 && CountNewlines(a) == 0
  {
    if a != [] {
      NoNewlineNoCount(a);
    }
  }

  lemma {:induction false} NoNewlineNoCount(a: Bytes)
    requires NEWLINE !in a
    ensures CountNewlines(a) == 0
  {
    if a != [] {
      NoNewlineNoCount(a[1..]);
    }
  }

  lemma {:induction false} CountOfConcat(a: Bytes, b: Bytes)
    ensures CountNewlines(a + b) == CountNewlines(a) + CountNewlines(b)
  {
    if a == [] {
      assert a + b == b;
    } else {
      assert (a + b)[1..] == a[1..] + b;
      CountOfConcat(a[1..], b);
    }
  }

  lemma LineShape(codec: Codec, e: Event)
    requires Lossless(codec)
    ensures CountNewlines(Line(codec, e)) == 1
    ensures WholeLength(Line(codec, e)) == |Line(codec, e)|
  {
    var text := codec.serialise(e);
    CountOfConcat(text, [NEWLINE]);
    NoNewlineNoCount(text);
    assert CountNewlines([NEWLINE]) == 1 + CountNewlines([NEWLINE][1..]);
  }

  lemma {:induction false} EncodeShape(codec: Codec, log: seq<Event>)
    requires Lossless(codec)
    ensures WholeLength(Encode(codec, log)) == |Encode(codec, log)|
    ensures CountNewlines(Encode(codec, log)) == |log|
  {
    if log != [] {
      LineShape(codec, log[0]);
      EncodeShape(codec, log[1..]);
      WholeOfConcat(Line(codec, log[0]), Encode(codec, log[1..]));
      CountOfConcat(Line(codec, log[0]), Encode(codec, log[1..]));
    }
  }

  lemma {:induction false} EncodeAppends(codec: Codec, log: seq<Event>, e: Event)
    ensures Encode(codec, log + [e]) == Encode(codec, log) + Line(codec, e)
  {
    if log == [] {
      assert log + [e] == [e];
    } else {
      assert (log + [e])[1..] == log[1..] + [e];
      EncodeAppends(codec, log[1..], e);
    }
  }

  lemma EncodePrefix(codec: Codec, log: seq<Event>, k: nat)
    requires k < |log|
    ensures Encode(codec, log[..k + 1]) == Line(codec, log[0]) + Encode(codec, log[1..][..k])
  {
    assert log[..k + 1][1..] == log[1..][..k];
  }

  // A file cut at any byte still holds whole lines of the same log, from its start.
  lemma {:induction false} EncodeCut(codec: Codec, log: seq<Event>, cut: nat) returns (kept: nat)
    requires Lossless(codec) && cut <= |Encode(codec, log)|
    ensures kept <= |log|
    ensures Whole(Encode(codec, log)[..cut]) == Encode(codec, log[..kept])
    ensures cut < |Encode(codec, log)| ==> kept < |log|
  {
    var raw := Encode(codec, log);
    if log == [] {
      kept := 0;
    } else {
      var line, rest := Line(codec, log[0]), Encode(codec, log[1..]);
      if cut < |line| {
        kept := 0;
        assert raw[..cut] == codec.serialise(log[0])[..cut];
        NoNewlineNoWhole(raw[..cut]);
      } else {
        var k := EncodeCut(codec, log[1..], cut - |line|);
        assert raw[..cut] == line + rest[..cut - |line|];
        WholeOfConcat(line, rest[..cut - |line|]);
        kept := k + 1;
        EncodePrefix(codec, log, k);
      }
    }
  }

  lemma {:induction false} BreakAfterText(text: Bytes, tail: Bytes)
    requires NEWLINE !in text && RETURN !in text
    requires tail != [] ==> tail[0] == NEWLINE
    ensures FirstBreak(text + tail) == |text|
  {
    if text == [] {
      assert text + tail == tail;
    } else {
      assert (text + tail)[1..] == text[1..] + tail;
      BreakAfterText(text[1..], tail);
    }
  }

  function Texts(codec: Codec, log: seq<Event>): seq<Bytes> {
    if log == [] then [] else [codec.serialise(log[0])] + Texts(codec, log[1..])
  }

  lemma SplitOne(text: Bytes)
    requires text != [] && NEWLINE !in text && RETURN !in text
    ensures SplitLines(text) == [text]
  {
    BreakAfterText(text, []);
    assert text + [] == text;
  }

  lemma SplitFirst(text: Bytes, more: Bytes)
    requires NEWLINE !in text && RETURN !in text
    ensures SplitLines(text + [NEWLINE] + more) == [text] + SplitLines(more)
  {
    var tail := [NEWLINE] + more;
    var raw := text + tail;
    BreakAfterText(text, tail);
    assert raw == text + [NEWLINE] + more;
    assert raw[|text|] == NEWLINE && raw[..|text|] == text && raw[|text| + 1..] == more;
  }

  lemma OneText(codec: Codec, e: Event)
    requires Lossless(codec)
    ensures codec.serialise(e) != [] && NEWLINE !in codec.serialise(e) && RETURN !in codec.serialise(e)
  {
    assert !Blank(codec.serialise(e));
  }

  // A line and what follows it, without the last newline.
  function Body(text: Bytes, rest: Bytes): Bytes {
    if rest == [] then text else text + [NEWLINE] + rest[..|rest| - 1]
  }

  lemma SplitBody(text: Bytes, rest: Bytes, lines: seq<Bytes>)
    requires text != [] && NEWLINE !in text && RETURN !in text
    requires if rest == [] then lines == [] else SplitLines(rest[..|rest| - 1]) == lines
    ensures SplitLines(Body(text, rest)) == [text] + lines
  {
    if rest == [] {
      SplitOne(text);
    } else {
      SplitFirst(text, rest[..|rest| - 1]);
    }
  }

  // The lines of a file of whole lines.
  function LinesOf(raw: Bytes): seq<Bytes> {
    if raw == [] then [] else SplitLines(raw[..|raw| - 1])
  }

  lemma SplitCons(codec: Codec, e: Event, rest: Bytes, lines: seq<Bytes>)
    requires Lossless(codec)
    requires LinesOf(rest) == lines
    ensures LinesOf(Line(codec, e) + rest) == [codec.serialise(e)] + lines
  {
    OneText(codec, e);
    DropLastByte(codec, e, rest);
    SplitBody(codec.serialise(e), rest, lines);
  }

  lemma {:induction false} SplitEncoded(codec: Codec, log: seq<Event>)
    requires Lossless(codec)
    ensures LinesOf(Encode(codec, log)) == Texts(codec, log)
  {
    if log != [] {
      var tail := log[1..];
      SplitEncoded(codec, tail);
      SplitCons(codec, log[0], Encode(codec, tail), Texts(codec, tail));
    }
  }

  lemma DropLastByte(codec: Codec, e: Event, rest: Bytes)
    ensures var raw := Line(codec, e) + rest;
            raw != [] && raw[..|raw| - 1] == Body(codec.serialise(e), rest)
  {
    var text := codec.serialise(e);
    assert Line(codec, e) + rest == text + [NEWLINE] + rest;
  }

  lemma {:induction false} ParseEncoded(codec: Codec, log: seq<Event>, after: int, first: int)
    requires Lossless(codec)
    requires forall i :: 0 <= i < |log| ==> log[i].sequence == first + i
    ensures ParseLines(codec, Texts(codec, log), after) == log[SuffixStart(after + 1 - first, |log|)..]
  {
    if log != [] {
      var tail := log[1..];
      ParseEncoded(codec, tail, after, first + 1);
      var lines := Texts(codec, log);
      assert lines[1..] == Texts(codec, tail) && lines[0] == codec.serialise(log[0]);
      if log[0].sequence > after {
        assert SuffixStart(after + 1 - first, |log|) == 0;
        assert log[0..] == [log[0]] + tail;
      } else {
        assert log[SuffixStart(after + 1 - first, |log|)..] == tail[SuffixStart(after - first, |tail|)..];
      }
    }
  }

  // Index of the first event of a numbered log of length n whose sequence is >= from.
  function SuffixStart(from: int, n: nat): (k: nat)
    ensures k <= n
  {
    if from < 0 then 0 else if from > n then n else from
  }

  // Replaying a file that holds a log returns exactly the events after the given sequence.
  lemma ReplayReturnsTheLog(codec: Codec, raw: Bytes, log: seq<Event>, after: int)
    requires Lossless(codec) && Holds(codec, raw, log)
    ensures Replay(codec, raw, after) == log[SuffixStart(after + 1, |log|)..]
  {
    var n := WholeLength(raw);
    var whole := Whole(raw);
    assert |whole| == n;
    if log == [] {
      assert n == 0;
      assert SplitLines(raw[..0]) == [];
    } else {
      SplitEncoded(codec, log);
      assert raw[..n - 1] == whole[..n - 1];
      ParseEncoded(codec, log, after, 0);
      assert Replay(codec, raw, after) == ParseLines(codec, Texts(codec, log), after);
    }
  }

  // --- files the writer did not produce ---

  // A line ends at "\n", at "\r", or at both together.
  lemma LinesBreak(text: Bytes, more: Bytes)
    requires NEWLINE !in text && RETURN !in text
    ensures SplitLines(text + [10] + more) == [text] + SplitLines(more)
    ensures SplitLines(text + [13, 10] + more) == [text] + SplitLines(more)
    ensures more == [] || more[0] != 10 ==> SplitLines(text + [13] + more) == [text] + SplitLines(more)
    ensures SplitLines(text) == if text == [] then [] else [text]
  {
    SplitFirst(text, more);
    SplitAtBoth(text, more);
    if more == [] || more[0] != NEWLINE {
      SplitAtReturn(text, more);
    }
    if text != [] {
      SplitOne(text);
    }
  }

  lemma SplitAtReturn(text: Bytes, more: Bytes)
    requires NEWLINE !in text && RETURN !in text && (more == [] || more[0] != NEWLINE)
    ensures SplitLines(text + [RETURN] + more) == [text] + SplitLines(more)
  {
    var raw := text + [RETURN] + more;
    BreakAtReturn(text, more);
    assert raw[..|text|] == text && raw[|text| + 1..] == more && raw[|text|] == RETURN;
    assert more != [] ==> raw[|text| + 1] == more[0];
  }

  lemma SplitAtBoth(text: Bytes, more: Bytes)
    requires NEWLINE !in text && RETURN !in text
    ensures SplitLines(text + [RETURN, NEWLINE] + more) == [text] + SplitLines(more)
  {
    var raw := text + [RETURN] + ([NEWLINE] + more);
    BreakAtReturn(text, [NEWLINE] + more);
    assert raw == text + [RETURN, NEWLINE] + more;
    assert raw[..|text|] == text && raw[|text| + 2..] == more && raw[|text| + 1] == NEWLINE;
  }

  lemma {:induction false} BreakAtReturn(text: Bytes, more: Bytes)
    requires NEWLINE !in text && RETURN !in text
    ensures FirstBreak(text + [RETURN] + more) == |text|
  {
    if text == [] {
      assert text + [RETURN] + more == [RETURN] + more;
    } else {
      assert (text + [RETURN] + more)[1..] == text[1..] + [RETURN] + more;
      BreakAtReturn(text[1..], more);
    }
  }

  // Nothing but spaces, tabs, and line and page breaks.
  predicate OnlyWhitespace(line: Bytes) {
    forall b :: b in line ==> b in {9, 10, 11, 12, 13, 32}
  }

  lemma BlankIsWhitespace(line: Bytes)
    ensures Blank(line) <==> OnlyWhitespace(line)
  {
    if Blank(line) {
      forall b | b in line ensures b in {9, 10, 11, 12, 13, 32} {
        var i :| 0 <= i < |line| && line[i] == b;
        assert IsSpace(line[i]);
      }
    }
    if OnlyWhitespace(line) {
      forall i | 0 <= i < |line| ensures IsSpace(line[i]) {
        assert line[i] in line;
      }
    }
  }

  // Line by line: a blank line and one that is no event are passed over, and so is an event that
  // is not after the given sequence.
  lemma {:induction false} LinesAreReadOneByOne(codec: Codec, before: seq<Bytes>, line: Bytes, after: int)
    ensures ParseLines(codec, before + [line], after)
            == ParseLines(codec, before, after)
               + (if OnlyWhitespace(line) || codec.parse(line).None? || codec.parse(line).value.sequence <= after
                  then [] else [codec.parse(line).value])
    ensures ParseLines(codec, [], after) == []
  {
    if before == [] {
      assert [] + [line] == [line] && [line][1..] == [];
      BlankIsWhitespace(line);
    } else {
      assert (before + [line])[1..] == before[1..] + [line];
      LinesAreReadOneByOne(codec, before[1..], line, after);
    }
  }

  // --- next_sequence() ---

  // On any bytes whatsoever the repair leaves only whole lines, changes nothing a replay
  // returns, and a second repair changes nothing at all.
  lemma RepairIsHarmless(codec: Codec, raw: Bytes, after: int)
    ensures var (fixed, n) := Repaired(raw);
            && WholeLength(fixed) == |fixed|
            && Replay(codec, fixed, after) == Replay(codec, raw, after)
            && Repaired(fixed) == (fixed, n)
  {
    var n := WholeLength(raw);
    var fixed := raw[..n];
    assert WholeLength(fixed) == n;
    if n > 0 {
      assert fixed[..n - 1] == raw[..n - 1];
    }
    assert fixed[..n] == fixed;
  }

  // On a file the writer produced, the number it returns is the number of events a replay returns.
  lemma RepairCountsEvents(codec: Codec, raw: Bytes, log: seq<Event>)
    requires Lossless(codec) && Holds(codec, raw, log)
    ensures Repaired(raw).1 == |log| == |Replay(codec, raw, -1)|
    ensures Holds(codec, Repaired(raw).0, log)
  {
    EncodeShape(codec, log);
    ReplayReturnsTheLog(codec, raw, log, -1);
    RepairIsHarmless(codec, raw, -1);
    assert Whole(Whole(raw)) == Whole(raw);
  }

  // --- all runs ---

  ghost predicate Sound(codec: Codec, d: Disk, log: seq<Event>) {
    && Holds(codec, d.raw, log)
    && (d.next.Some? ==> WholeLength(d.raw) == |d.raw| && d.next.value == |log|)
  }

  // A whole line extends the log; a line cut short leaves it as it was.
  lemma AppendedLine(codec: Codec, raw: Bytes, log: seq<Event>, e: Event, cut: nat)
    requires Lossless(codec) && Holds(codec, raw, log) && WholeLength(raw) == |raw| && e.sequence == |log|
    ensures cut < |Line(codec, e)| ==> Holds(codec, raw + Line(codec, e)[..cut], log)
    ensures Holds(codec, raw + Line(codec, e), log + [e])
    ensures WholeLength(raw + Line(codec, e)) == |raw + Line(codec, e)|
  {
    assert raw == Whole(raw) == Encode(codec, log);
    if cut < |Line(codec, e)| {
      var torn := Line(codec, e)[..cut];
      assert torn == codec.serialise(e)[..cut];
      NoNewlineNoWhole(torn);
      WholeOfConcat(raw, torn);
      assert (raw + torn)[..|raw|] == raw;
    }
    EncodeAppends(codec, log, e);
    EncodeShape(codec, log + [e]);
  }

  // A repair cut short leaves the start of the same log, all of it only when every whole
  // line is back.
  lemma CutRepair(codec: Codec, raw: Bytes, log: seq<Event>, cut: nat) returns (after: seq<Event>)
    requires Lossless(codec) && Holds(codec, raw, log)
    ensures Holds(codec, Cut(Whole(raw), cut), after) && after <= log
    ensures after == log <==> |Whole(raw)| <= cut
  {
    EncodeShape(codec, log);
    if cut < |Whole(raw)| {
      var kept := EncodeCut(codec, log, cut);
      after := log[..kept];
    } else {
      after := log;
      assert Whole(Whole(raw)) == Whole(raw);
    }
  }

  predicate RewritesFile(d: Disk, a: Action) {
    a.TornRepair? && d.next.None? && WholeLength(d.raw) < |d.raw|
  }

  // What one step does to the log the file holds.
  lemma StepKeepsLog(codec: Codec, d: Disk, log: seq<Event>, a: Action) returns (after: seq<Event>)
    requires Lossless(codec) && Sound(codec, d, log)
    ensures Sound(codec, Apply(codec, d, a), after)
    ensures !RewritesFile(d, a) ==> log <= after
    ensures RewritesFile(d, a) ==> after <= log && (after == log <==> |Whole(d.raw)| <= a.cut)
  {
    after := log;
    match a
    case Restart =>
      RepairCountsEvents(codec, d.raw, log);
      RepairIsHarmless(codec, d.raw, -1);
    case Append(name, body) =>
      if d.next.Some? {
        after := log + [Event(d.next.value, name, body)];
        AppendedLine(codec, d.raw, log, Event(d.next.value, name, body), 0);
      }
    case TornAppend(e, cut) =>
      if d.next.Some? && e.sequence == d.next.value {
        AppendedLine(codec, d.raw, log, e, cut);
        if cut >= |Line(codec, e)| {
          after := log + [e];
        }
      }
    case TornRepair(cut) =>
      if RewritesFile(d, a) {
        after := CutRepair(codec, d.raw, log, cut);
      }
    case Kill =>
  }

  lemma {:induction false} RunKeepsLog(codec: Codec, actions: seq<Action>) returns (log: seq<Event>)
    requires Lossless(codec)
    ensures Sound(codec, Exec(codec, actions), log)
  {
    if actions == [] {
      log := [];
    } else {
      var before := RunKeepsLog(codec, actions[..|actions| - 1]);
      log := StepKeepsLog(codec, Exec(codec, actions[..|actions| - 1]), before, actions[|actions| - 1]);
    }
  }

  // Over any number of append / kill-at-any-byte / restart epochs: the k-th complete line
  // carries sequence k, and whenever a process is up it continues with exactly the next one
  // on a file without a torn tail.
  lemma NumberingSurvivesCrashes(codec: Codec, actions: seq<Action>)
    requires Lossless(codec)
    ensures var d := Exec(codec, actions); var log := Replay(codec, d.raw, -1);
            && Numbered(log)
            && Whole(d.raw) == Encode(codec, log)
            && (d.next.Some? ==> d.next.value == |log| && WholeLength(d.raw) == |d.raw|)
  {
    var log := RunKeepsLog(codec, actions);
    ReplayReturnsTheLog(codec, Exec(codec, actions).raw, log, -1);
  }

  // Persisted events are never lost, except by a kill in the middle of the repair's own
  // rewrite, which loses events exactly when it comes before all whole lines are back.
  lemma PersistedEventsStay(codec: Codec, actions: seq<Action>, a: Action)
    requires Lossless(codec)
    ensures var d := Exec(codec, actions);
            var before, after := Replay(codec, d.raw, -1), Replay(codec, Exec(codec, actions + [a]).raw, -1);
            && (!RewritesFile(d, a) ==> before <= after)
            && (RewritesFile(d, a) ==> after <= before && (after != before <==> a.cut < |Whole(d.raw)|))
  {
    var d := Exec(codec, actions);
    var log := RunKeepsLog(codec, actions);
    assert (actions + [a])[..|actions|] == actions;
    var log' := StepKeepsLog(codec, d, log, a);
    ReplayReturnsTheLog(codec, d.raw, log, -1);
    ReplayReturnsTheLog(codec, Apply(codec, d, a).raw, log', -1);
  }

  // In every run: a running process that appends adds just that event, numbered next.
  lemma AppendAddsOneEvent(codec: Codec, actions: seq<Action>, name: string, body: string)
    requires Lossless(codec) && Exec(codec, actions).next.Some?
    ensures var log, t := Replay(codec, Exec(codec, actions).raw, -1), Exec(codec, actions + [Append(name, body)]);
            Replay(codec, t.raw, -1) == log + [Event(|log|, name, body)] && t.next == Some(|log| + 1)
  {
    var log := RunKeepsLog(codec, actions);
    ReplayReturnsTheLog(codec, Exec(codec, actions).raw, log, -1);
    assert (actions + [Append(name, body)])[..|actions|] == actions;
    AppendReplays(codec, Exec(codec, actions), log, name, body);
  }

  lemma AppendReplays(codec: Codec, d: Disk, log: seq<Event>, name: string, body: string)
    requires Lossless(codec) && Sound(codec, d, log) && d.next.Some?
    ensures var t := Apply(codec, d, Append(name, body));
            Replay(codec, t.raw, -1) == log + [Event(|log|, name, body)] && t.next == Some(|log| + 1)
  {
    var e := Event(|log|, name, body);
    AppendedLine(codec, d.raw, log, e, 0);
    ReplayReturnsTheLog(codec, d.raw + Line(codec, e), log + [e], -1);
  }

  // A restart numbers on from what a replay returns and loses none of it; a kill changes nothing
  // on disk.
  lemma RestartGoesOn(codec: Codec, actions: seq<Action>)
    requires Lossless(codec) && Exec(codec, actions).next.None?
    ensures var d, t := Exec(codec, actions), Exec(codec, actions + [Restart]);
            t.next == Some(|Replay(codec, d.raw, -1)|) && Replay(codec, t.raw, -1) == Replay(codec, d.raw, -1)
    ensures Exec(codec, actions + [Restart, Kill]) == Disk(Exec(codec, actions + [Restart]).raw, None)
  {
    var log := RunKeepsLog(codec, actions);
    var d := Exec(codec, actions);
    assert (actions + [Restart])[..|actions|] == actions;
    assert (actions + [Restart, Kill])[..|actions| + 1] == actions + [Restart];
    RestartReplays(codec, d, log);
  }

  lemma RestartReplays(codec: Codec, d: Disk, log: seq<Event>)
    requires Lossless(codec) && Sound(codec, d, log) && d.next.None?
    ensures var t := Apply(codec, d, Restart);
            t.next == Some(|Replay(codec, d.raw, -1)|) && Replay(codec, t.raw, -1) == Replay(codec, d.raw, -1)
  {
    RepairCountsEvents(codec, d.raw, log);
    RepairIsHarmless(codec, d.raw, -1);
  }

  // The one loss, on concrete files: one event, then a torn line; a kill right after the
  // repair has emptied the file loses the event.
  lemma RepairCanLoseEvents(codec: Codec, e: Event, torn: Bytes)
    requires Lossless(codec) && e.sequence == 0 && torn != [] && NEWLINE !in torn
    ensures var d := Disk(Line(codec, e) + torn, None);
            && Replay(codec, d.raw, -1) == [e]
            && Replay(codec, Apply(codec, d, TornRepair(0)).raw, -1) == []
  {
    var raw := Line(codec, e) + torn;
    LineShape(codec, e);
    NoNewlineNoWhole(torn);
    WholeOfConcat(Line(codec, e), torn);
    assert Encode(codec, [e]) == Line(codec, e) + Encode(codec, []);
    assert Whole(raw) == Line(codec, e);
    ReplayReturnsTheLog(codec, raw, [e], -1);
    assert [e][0..] == [e];
  }

  // --- the writer object ---

  // RunArtifactWriter's view of events.jsonl; None while the file does not exist.
  class RunArtifactWriter {
    const codec: Codec
    var file: Option<Bytes>

    constructor (codec: Codec, file: Option<Bytes>)
      ensures this.codec == codec && this.file == file
    {
      this.codec := codec;
      this.file := file;
    }

    ghost function Contents(): Bytes
      reads this
    {
      if file.None? then [] else file.value
    }

    method NextSequence() returns (n: nat)
      modifies this
      ensures (Contents(), n) == Repaired(old(Contents()))
      ensures file.None? == old(file.None?)
    {
      if file.None? {
        return 0;
      }
      var raw := file.value;
      if raw == [] {
        return 0;
      }
      var end := WholeLength(raw);
      var partial := raw[end..];
      if partial != [] {
        file := Some(raw[..end]);
      }
      assert raw[..end] == if partial == [] then raw else raw[..end];
      if end == 0 {
        return 0;
      }
      n := CountNewlines(raw[..end - 1]) + 1;
      CountOfConcat(raw[..end - 1], [NEWLINE]);
      assert raw[..end] == raw[..end - 1] + [NEWLINE];
      assert CountNewlines([NEWLINE]) == 1 + CountNewlines([NEWLINE][1..]);
    }

    method RecordEvent(e: Event)
      modifies this
      ensures Contents() == old(Contents()) + Line(codec, e) && file.Some?
    {
      var line := codec.serialise(e) + [NEWLINE];
      file := Some(if file.None? then line else file.value + line);
    }
  }
}
