/** Reading event lines from a connection: lines over the limit are skipped without losing the
    ones after them. Bytes are characters, one each. */
module EventLines {
  import opened Results
  import opened Sequences

  const MAX_LINE := 65536

  /** One result of ReadSlice: a full buffer without a newline, a text that ends in its only
      newline, or the rest of the stream. */
  datatype Slice = Full(data: string) | ToNewline(data: string) | AtEnd(data: string)

  predicate SliceOk(s: Slice) {
    match s
    case Full(data) => data != "" && '\n' !in data
    case ToNewline(data) => data != "" && '\n' !in data[..|data| - 1] && data[|data| - 1] == '\n'
    case AtEnd(data) => '\n' !in data
  }

  /** A whole stream as a reader may see it: any cutting into slices, with the end as the last. */
  ghost predicate Slicing(slices: seq<Slice>) {
    && slices != [] && slices[|slices| - 1].AtEnd?
    && (forall k :: 0 <= k < |slices| ==> SliceOk(slices[k]))
    && (forall k :: 0 <= k < |slices| - 1 ==> !slices[k].AtEnd?)
  }

  function Bytes(slices: seq<Slice>): string { if slices == [] then "" else slices[0].data + Bytes(slices[1..]) }

  /** Every stream can be read in slices. */
  lemma {:induction false} StreamsHaveSlices(stream: string) returns (slices: seq<Slice>)
    ensures Slicing(slices) && Bytes(slices) == stream
  {
    if stream == "" {
      slices := [AtEnd("")];
    } else {
      var rest := StreamsHaveSlices(stream[1..]);
      var data := stream[..1];
      slices := [if data == "\n" then ToNewline(data) else Full(data)] + rest;
      assert slices[1..] == rest && stream == data + stream[1..];
    }
  }

  /** What a read reports: a line with its newline, or that one was too long. */
  datatype Event = Line(text: string) | TooLong

  function EventOf(line: string): Event { if |line| > MAX_LINE then TooLong else Line(line) }

  /** A stream split at newlines, a last line without one included. */
  function Events(stream: string): seq<Event>
    decreases |stream|
  {
    if stream == "" then []
    else
      var n := IndexOf(stream, '\n');
      if n == |stream| then [EventOf(stream)] else [EventOf(stream[..n + 1])] + Events(stream[n + 1..])
  }

  /** The loop of readEventLine: the line so far, or that it is already too long. */
  datatype Reading = Reading(line: string, oversized: bool)

  function Extend(r: Reading, part: string): Reading {
    if r.oversized then r
    else if |r.line| + |part| > MAX_LINE then Reading("", true)
    else Reading(r.line + part, false)
  }

  /** One read: a line, a line that was too long, or the end; and the slices that are left. */
  datatype Outcome = Got(event: Event) | End

  /** What the loop holds after reading text. */
  function Held(text: string): Reading { if |text| > MAX_LINE then Reading("", true) else Reading(text, false) }

  lemma HeldExtends(text: string, part: string)
    ensures Extend(Held(text), part) == Held(text + part)
  {}

  lemma BytesHead(slices: seq<Slice>, i: nat)
    requires i < |slices|
    ensures Bytes(slices[i..]) == slices[i].data + Bytes(slices[i + 1..])
  {
    assert slices[i..][0] == slices[i] && slices[i..][1..] == slices[i + 1..];
  }

  method ReadEventLine(slices: seq<Slice>) returns (r: Outcome, rest: seq<Slice>, ghost text: string)
    requires Slicing(slices)
    ensures Slicing(rest) && Bytes(slices) == text + Bytes(rest) && IsLine(text, Bytes(rest))
    ensures r == if text == "" then End else Got(EventOf(text))
    ensures text != "" ==> |rest| < |slices| || (rest == [AtEnd("")] && slices != rest)
  {
    hide Held, Extend, Bytes;
    var state := Reading("", false);
    text := "";
    assert state == Held(text) by { HeldOfNothing(); }
    var i := 0;
    while true
      invariant 0 <= i < |slices|
      invariant '\n' !in text && Bytes(slices) == text + Bytes(slices[i..])
      invariant state == Held(text) && (i > 0 ==> text != "")
      decreases |slices| - i
    {
      var part := slices[i];
      BytesHead(slices, i);
      CatThree(text, part.data, Bytes(slices[i + 1..]));
      HeldExtends(text, part.data);
      state := Extend(state, part.data);
      ghost var before := text;
      text := text + part.data;
      HeldMeans(text);
      match part {
        case Full(_) =>
          i := i + 1;
        case ToNewline(data) =>
          SlicingTail(slices, i + 1);
          LineEnded(before, data);
          r, rest := Got(if state.oversized then TooLong else Line(state.line)), slices[i + 1..];
          return;
        case AtEnd(_) =>
          BytesOfEnd();
          CatNil(text);
          assert slices[i + 1..] == [];
          r := if state.oversized then Got(TooLong) else if |state.line| > 0 then Got(Line(state.line)) else End;
          rest := [AtEnd("")];
          return;
      }
    }
  }

  lemma HeldOfNothing()
    ensures Held("") == Reading("", false)
  {}

  lemma HeldMeans(text: string)
    ensures var h := Held(text);
            EventOf(text) == (if h.oversized then TooLong else Line(h.line)) && (!h.oversized ==> h.line == text)
    ensures Held(text).oversized ==> text != ""
  {}

  lemma LineEnded(before: string, data: string)
    requires '\n' !in before && SliceOk(ToNewline(data))
    ensures var text := before + data; text != "" && text[|text| - 1] == '\n' && '\n' !in text[..|text| - 1]
  {
    assert (before + data)[..|before + data| - 1] == before + data[..|data| - 1];
  }

  lemma BytesOfEnd()
    ensures Bytes([AtEnd("")]) == "" && Bytes([]) == "" && Slicing([AtEnd("")])
  {
    assert [AtEnd("")][1..] == [];
  }

  lemma SlicingTail(slices: seq<Slice>, i: nat)
    requires Slicing(slices) && 0 < i < |slices|
    ensures Slicing(slices[i..])
  {
    assert slices[i..][|slices[i..]| - 1] == slices[|slices| - 1];
  }

  /** text is the first line of a stream that goes on with rest. */
  ghost predicate IsLine(text: string, rest: string) {
    || (text != "" && text[|text| - 1] == '\n' && '\n' !in text[..|text| - 1])
    || ('\n' !in text && rest == "")
  }

  lemma EventsHead(text: string, rest: string)
    requires IsLine(text, rest) && text != ""
    ensures Events(text + rest) == [EventOf(text)] + Events(rest)
  {
    if text[|text| - 1] == '\n' && '\n' !in text[..|text| - 1] {
      var line := text[..|text| - 1];
      assert text + rest == line + (['\n'] + rest);
      IndexAfter(line, ['\n'] + rest, '\n');
      assert (text + rest)[..|text|] == text && (text + rest)[|text|..] == rest;
    } else {
      assert text + rest == text;
      CatNil(text);
      IndexAfter(text, "", '\n');
    }
  }

  /** serveConn's loop over a connection that carries events only. However the stream is cut into
      slices, the lines are those of the stream split at newlines: exactly the ones over the limit
      are flagged, and none after them is lost. */
  method ReadAll(slices: seq<Slice>) returns (events: seq<Event>)
    requires Slicing(slices)
    ensures events == Events(Bytes(slices))
  {
    events := [];
    var left := slices;
    while true
      invariant Slicing(left)
      invariant Events(Bytes(slices)) == events + Events(Bytes(left))
      decreases |left|, if left == [AtEnd("")] then 0 else 1
    {
      var r, rest, text := ReadEventLine(left);
      match r {
        case End =>
          CatNil(events);
          return;
        case Got(event) =>
          EventsHead(text, Bytes(rest));
          CatThree(events, [event], Events(Bytes(rest)));
          events, left := events + [event], rest;
      }
    }
  }

  lemma {:induction false} EventsOfLines(lines: seq<string>, last: string)
    requires forall k :: 0 <= k < |lines| ==> '\n' !in lines[k]
    requires '\n' !in last
    ensures |Events(Ended(lines) + last)| == |lines| + (if last == "" then 0 else 1)
    ensures forall k :: 0 <= k < |lines| ==> Events(Ended(lines) + last)[k] == EventOf(lines[k] + "\n")
  {
    if lines == [] {
      assert Ended(lines) + last == last;
      CatNil(last);
      IndexAfter(last, "", '\n');
    } else {
      var rest := Ended(lines[1..]) + last;
      var text := lines[0] + "\n";
      assert Ended(lines) + last == text + rest;
      assert text[..|text| - 1] == lines[0];
      EventsHead(text, rest);
      EventsOfLines(lines[1..], last);
    }
  }

  /** Lines, each ended by a newline. */
  function Ended(lines: seq<string>): string { if lines == [] then "" else lines[0] + "\n" + Ended(lines[1..]) }
}
