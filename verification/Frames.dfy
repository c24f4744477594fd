/** The frames that carry a call's output to the host, and how a reader takes them apart.
    Bytes are characters, one each. */
module Frames {
  import opened Results
  import opened Sequences
  import Decimal

  const CHUNK := 65536

  datatype Stream = Stdout | Stderr

  function Tag(kind: Stream): char { if kind.Stdout? then 'o' else 'e' }

  datatype Frame = Data(kind: Stream, data: string) | Exit(code: nat)

  /** The frames of one connection so far, in the order written. */
  function Encode(frame: Frame): string {
    match frame
    case Data(kind, data) => [Tag(kind), ' '] + Decimal.Itoa(|data|) + ['\n'] + data
    case Exit(code) => "x " + Decimal.Itoa(code) + ['\n']
  }

  function EncodeAll(frames: seq<Frame>): string {
    if frames == [] then "" else EncodeAll(frames[..|frames| - 1]) + Encode(frames[|frames| - 1])
  }

  /** What one frame header says, and what follows it. */
  datatype Head = Head(tag: char, number: nat, rest: string)

  function ReadHead(s: string): Option<Head> {
    if |s| < 2 || s[1] != ' ' then None
    else
      var n := IndexOf(s[2..], '\n');
      if n == |s| - 2 then None
      else
        var number := Decimal.Atoi(s[2..][..n]);
        if number.None? then None else Some(Head(s[0], number.value, s[2..][n + 1..]))
  }

  /** A header is one character, a space and a number up to the first newline. */
  lemma HeadMeans(s: string, tag: char, number: nat, rest: string)
    ensures ReadHead(s) == Some(Head(tag, number, rest)) <==>
              exists digits :: s == [tag, ' '] + digits + ['\n'] + rest && '\n' !in digits && Decimal.Atoi(digits) == Some(number)
  {
    hide Decimal.Atoi, ReadHead;
    if ReadHead(s) == Some(Head(tag, number, rest)) {
      var digits := HeadSplits(s);
    }
    if digits :| s == [tag, ' '] + digits + ['\n'] + rest && '\n' !in digits && Decimal.Atoi(digits) == Some(number) {
      HeadJoins(tag, digits, rest);
    }
  }

  lemma HeadSplits(s: string) returns (digits: string)
    requires ReadHead(s).Some?
    ensures var h := ReadHead(s).value;
            s == [h.tag, ' '] + digits + ['\n'] + h.rest && '\n' !in digits && Decimal.Atoi(digits) == Some(h.number)
  {
    hide Decimal.Atoi;
    var body := s[2..];
    var n := IndexOf(body, '\n');
    digits := body[..n];
    var head, end, rest := [s[0], ' '], ['\n'], body[n + 1..];
    CutAt(body, n);
    assert s == head + body;
    CatThree(head, digits, end + rest);
    CatThree(head + digits, end, rest);
  }

  lemma CutAt(body: string, n: nat)
    requires n < |body|
    ensures body == body[..n] + ([body[n]] + body[n + 1..])
  {}

  lemma HeadJoins(tag: char, digits: string, rest: string)
    requires '\n' !in digits
    ensures ReadHead([tag, ' '] + digits + ['\n'] + rest)
         == if Decimal.Atoi(digits).None? then None else Some(Head(tag, Decimal.Atoi(digits).value, rest))
  {
    hide Decimal.Atoi;
    var s := [tag, ' '] + digits + ['\n'] + rest;
    assert s[2..] == digits + (['\n'] + rest);
    IndexAfter(digits, ['\n'] + rest, '\n');
    assert (digits + (['\n'] + rest))[..|digits|] == digits;
    assert (digits + (['\n'] + rest))[|digits| + 1..] == rest;
  }

  /** The frames of a byte stream; None when it is not made of whole frames. */
  function Decode(s: string): Option<seq<Frame>>
    decreases |s|
  {
    if s == "" then Some([])
    else
      var head := ReadHead(s);
      if head.None? then None
      else
        var Head(tag, number, rest) := head.value;
        if tag == 'x' then
          var frames := Decode(rest);
          if frames.None? then None else Some([Exit(number)] + frames.value)
        else if (tag == 'o' || tag == 'e') && number <= |rest| then
          var frames := Decode(rest[number..]);
          if frames.None? then None
          else Some([Data(if tag == 'o' then Stdout else Stderr, rest[..number])] + frames.value)
        else None
  }

  /** The bytes of one stream. */
  function BytesOf(frames: seq<Frame>, kind: Stream): string {
    if frames == [] then ""
    else
      var last := frames[|frames| - 1];
      BytesOf(frames[..|frames| - 1], kind) + (if last.Data? && last.kind == kind then last.data else "")
  }

  /** data cut into frames of at most CHUNK bytes. */
  function Chunks(kind: Stream, data: string): seq<Frame>
    decreases |data|
  {
    if data == "" then []
    else if |data| <= CHUNK then [Data(kind, data)]
    else [Data(kind, data[..CHUNK])] + Chunks(kind, data[CHUNK..])
  }

  class FrameWriter {
    var sent: string
    var exited: bool
    ghost var frames: seq<Frame>

    /** What was sent is the frames written; no frame follows an exit. */
    ghost predicate Valid()
      reads this
    {
      && sent == EncodeAll(frames) && WellOrdered(frames)
      && (exited <==> frames != [] && frames[|frames| - 1].Exit?)
    }

    constructor ()
      ensures Valid() && frames == [] && !exited
    {
      sent, exited, frames := "", false, [];
    }

    /** One data frame, whole under the lock, unless the call has exited. */
    method WriteFrame(kind: Stream, data: string) returns (ok: bool)
      requires Valid() && 0 < |data| <= CHUNK
      modifies this
      ensures Valid() && ok == !old(exited) && exited == old(exited)
      ensures frames == if ok then old(frames) + [Data(kind, data)] else old(frames)
    {
      if exited {
        return false;
      }
      hide Encode;
      EncodeSnoc(frames, Data(kind, data));
      OrderedSnoc(frames, Data(kind, data));
      sent := sent + Encode(Data(kind, data));
      frames := frames + [Data(kind, data)];
      return true;
    }

    /** The one exit frame. */
    method WriteExit(code: nat) returns (ok: bool)
      requires Valid()
      modifies this
      ensures Valid() && ok == !old(exited) && exited
      ensures frames == if ok then old(frames) + [Exit(code)] else old(frames)
    {
      if exited {
        return false;
      }
      hide Encode;
      EncodeSnoc(frames, Exit(code));
      OrderedSnoc(frames, Exit(code));
      exited := true;
      sent := sent + Encode(Exit(code));
      frames := frames + [Exit(code)];
      return true;
    }

    /** Write, with nobody else writing meanwhile: the whole of data, or nothing after the exit. */
    method Write(kind: Stream, data: string) returns (written: nat)
      requires Valid()
      modifies this
      ensures Valid() && exited == old(exited)
      ensures written == if old(exited) then 0 else |data|
      ensures frames == if old(exited) then old(frames) else old(frames) + Chunks(kind, data)
    {
      var p := data;
      written := 0;
      while |p| > 0
        invariant Valid() && exited == old(exited) && written + |p| == |data|
        invariant written == 0 ==> frames == old(frames) && p == data
        invariant !exited ==> frames + Chunks(kind, p) == old(frames) + Chunks(kind, data)
        invariant exited ==> written == 0 && frames == old(frames)
        decreases |p|
      {
        var chunk := if |p| > CHUNK then p[..CHUNK] else p;
        var ok := WriteFrame(kind, chunk);
        if !ok {
          return;
        }
        written := written + |chunk|;
        ChunksStep(kind, p);
        CatThree(frames[..|frames| - 1], [Data(kind, chunk)], Chunks(kind, p[|chunk|..]));
        p := p[|chunk|..];
      }
      CatNil(frames);
    }
  }

  lemma ChunksStep(kind: Stream, p: string)
    requires p != ""
    ensures var n := if |p| > CHUNK then CHUNK else |p|;
            Chunks(kind, p) == [Data(kind, p[..n])] + Chunks(kind, p[n..])
  {
    if |p| <= CHUNK {
      assert p[..|p|] == p && p[|p|..] == "";
    }
  }

  /** Data frames carry 1 to CHUNK bytes, and an exit frame is the last. */
  ghost predicate WellOrdered(frames: seq<Frame>) {
    && (forall k :: 0 <= k < |frames| && frames[k].Data? ==> 0 < |frames[k].data| <= CHUNK)
    && (forall k :: 0 <= k < |frames| && frames[k].Exit? ==> k == |frames| - 1)
  }

  lemma OrderedSnoc(frames: seq<Frame>, frame: Frame)
    requires WellOrdered(frames) && (frames == [] || !frames[|frames| - 1].Exit?)
    requires frame.Data? ==> 0 < |frame.data| <= CHUNK
    ensures WellOrdered(frames + [frame])
  {}

  lemma EncodeSnoc(frames: seq<Frame>, frame: Frame)
    ensures EncodeAll(frames + [frame]) == EncodeAll(frames) + Encode(frame)
  {
    assert (frames + [frame])[..|frames|] == frames;
  }

  // ----- decoding -----

  lemma DigitsNoNewline(n: nat)
    ensures '\n' !in Decimal.Itoa(n)
  {
    hide Decimal.Itoa;
    assert !Decimal.IsDigit('\n');
  }

  lemma HeadRead(tag: char, number: nat, rest: string)
    ensures ReadHead([tag, ' '] + Decimal.Itoa(number) + ['\n'] + rest) == Some(Head(tag, number, rest))
  {
    hide ReadHead, Decimal.Itoa, Decimal.Atoi;
    DigitsNoNewline(number);
    HeadJoins(tag, Decimal.Itoa(number), rest);
    Decimal.AtoiItoa(number, Decimal.Itoa(number));
  }

  lemma DataFramed(kind: Stream, data: string, rest: string)
    ensures Encode(Data(kind, data)) + rest == [Tag(kind), ' '] + Decimal.Itoa(|data|) + ['\n'] + (data + rest)
    ensures (data + rest)[..|data|] == data && (data + rest)[|data|..] == rest
    ensures Encode(Data(kind, data)) + rest != ""
  {
    hide Decimal.Itoa;
    var head := [Tag(kind), ' '] + Decimal.Itoa(|data|) + ['\n'];
    CatThree(head, data, rest);
    assert head[0] == Tag(kind);
  }

  lemma ExitFramed(code: nat, rest: string)
    ensures Encode(Exit(code)) + rest == ['x', ' '] + Decimal.Itoa(code) + ['\n'] + rest
    ensures Encode(Exit(code)) + rest != ""
  {
    hide Decimal.Itoa;
    assert "x " == ['x', ' '];
  }

  /** The decoder takes one frame off the front. */
  lemma DecodeFrame(frame: Frame, rest: string)
    ensures Decode(Encode(frame) + rest)
         == if Decode(rest).Some? then Some([frame] + Decode(rest).value) else None
  {
    hide ReadHead, Encode, Decimal.Itoa;
    match frame {
      case Data(kind, data) =>
        DataFramed(kind, data, rest);
        HeadRead(Tag(kind), |data|, data + rest);
      case Exit(code) =>
        ExitFramed(code, rest);
        HeadRead('x', code, rest);
    }
  }

  lemma {:induction false} DecodeBefore(frames: seq<Frame>, rest: string)
    requires Decode(rest).Some?
    ensures Decode(EncodeAll(frames) + rest) == Some(frames + Decode(rest).value)
    decreases |frames|
  {
    hide Decode, Encode;
    if frames == [] {
      CatNil(rest);
      CatNil(Decode(rest).value);
    } else {
      var before, last := frames[..|frames| - 1], frames[|frames| - 1];
      DecodeFrame(last, rest);
      DecodeBefore(before, Encode(last) + rest);
      CatThree(EncodeAll(before), Encode(last), rest);
      CatThree(before, [last], Decode(rest).value);
      assert before + [last] == frames;
    }
  }

  /** Whatever was written, a reader gets back exactly the frames written. */
  lemma DecodeEncode(frames: seq<Frame>)
    ensures Decode(EncodeAll(frames)) == Some(frames)
  {
    DecodeBefore(frames, "");
    CatNil(EncodeAll(frames));
    CatNil(frames);
  }

  // ----- concurrent writers -----

  /** A writer on one stream: what its Write has still to send, what it was given in all, and
      whether a Write of its failed. */
  datatype Writer = Writer(kind: Stream, pending: string, given: string, failed: bool)

  datatype Wire = Wire(frames: seq<Frame>, writers: map<nat, Writer>)

  datatype Step =
    | Open(id: nat, kind: Stream)                 // a goroutine that writes to one stream
    | BeginWrite(id: nat, data: string)           // it is idle and is given data
    | SendChunk(id: nat)                          // one turn of the loop, under the lock
    | SendExit(code: nat)

  predicate Exited(w: Wire) { w.frames != [] && w.frames[|w.frames| - 1].Exit? }

  /** At most one goroutine writes to each stream. */
  predicate Enabled(w: Wire, step: Step) {
    match step
    case Open(id, kind) => id !in w.writers && forall j :: j in w.writers ==> w.writers[j].kind != kind
    case BeginWrite(id, _) => id in w.writers && w.writers[id].pending == ""
    case SendChunk(id) => id in w.writers && w.writers[id].pending != ""
    case SendExit(_) => true
  }

  function Cut(p: string): nat { if |p| > CHUNK then CHUNK else |p| }

  function Apply(w: Wire, step: Step): Wire
    requires Enabled(w, step)
  {
    match step
    case Open(id, kind) => w.(writers := w.writers[id := Writer(kind, "", "", false)])
    case BeginWrite(id, data) =>
      w.(writers := w.writers[id := w.writers[id].(pending := data, given := w.writers[id].given + data)])
    case SendChunk(id) =>
      var one := w.writers[id];
      if Exited(w) then w.(writers := w.writers[id := one.(pending := "", failed := true)])
      else
        var n := Cut(one.pending);
        w.(frames := w.frames + [Data(one.kind, one.pending[..n])],
           writers := w.writers[id := one.(pending := one.pending[n..])])
    case SendExit(code) => if Exited(w) then w else w.(frames := w.frames + [Exit(code)])
  }

  ghost predicate Run(w: Wire, steps: seq<Step>)
    decreases |steps|
  {
    steps == [] || (Enabled(w, steps[0]) && Run(Apply(w, steps[0]), steps[1..]))
  }

  function End(w: Wire, steps: seq<Step>): Wire
    requires Run(w, steps)
    decreases |steps|
  {
    if steps == [] then w else End(Apply(w, steps[0]), steps[1..])
  }

  /** The stream carries a prefix of what its writer was given: all but what is still pending, as
      long as no Write of its failed. */
  ghost predicate Carries(frames: seq<Frame>, one: Writer) {
    && BytesOf(frames, one.kind) <= one.given
    && (!one.failed ==> one.given == BytesOf(frames, one.kind) + one.pending)
  }

  ghost predicate Written(w: Wire, kind: Stream) { exists id :: id in w.writers && w.writers[id].kind == kind }

  ghost predicate Inv(w: Wire) {
    && WellOrdered(w.frames)
    && (forall i, j :: i in w.writers && j in w.writers && w.writers[i].kind == w.writers[j].kind ==> i == j)
    && (forall kind :: !Written(w, kind) ==> BytesOf(w.frames, kind) == "")
    && (forall id :: id in w.writers ==>
          && Carries(w.frames, w.writers[id])
          && (w.writers[id].failed ==> Exited(w)))
  }

  lemma BytesSnoc(frames: seq<Frame>, frame: Frame, kind: Stream)
    ensures BytesOf(frames + [frame], kind)
         == BytesOf(frames, kind) + (if frame.Data? && frame.kind == kind then frame.data else "")
  {
    assert (frames + [frame])[..|frames|] == frames;
  }

  lemma ChunkCarried(frames: seq<Frame>, one: Writer, n: nat)
    requires Carries(frames, one) && !one.failed && n <= |one.pending|
    ensures Carries(frames + [Data(one.kind, one.pending[..n])], one.(pending := one.pending[n..]))
  {
    BytesSnoc(frames, Data(one.kind, one.pending[..n]), one.kind);
    assert one.pending[..n] + one.pending[n..] == one.pending;
    CatThree(BytesOf(frames, one.kind), one.pending[..n], one.pending[n..]);
  }

  lemma ChunkKeepsInv(w: Wire, id: nat)
    requires Inv(w) && Enabled(w, SendChunk(id)) && !Exited(w)
    ensures Inv(Apply(w, SendChunk(id)))
  {
    hide Carries;
    var w', one := Apply(w, SendChunk(id)), w.writers[id];
    var n := Cut(one.pending);
    ChunkCarried(w.frames, one, n);
    forall kind ensures kind != one.kind ==> BytesOf(w'.frames, kind) == BytesOf(w.frames, kind) {
      BytesSnoc(w.frames, Data(one.kind, one.pending[..n]), kind);
      CatNil(BytesOf(w.frames, kind));
    }
    forall j | j in w'.writers && j != id ensures Carries(w'.frames, w'.writers[j]) {
      SameBytes(w.frames, w'.frames, w.writers[j]);
    }
    forall kind | !Written(w', kind) ensures BytesOf(w'.frames, kind) == "" {
      assert w'.writers[id].kind != kind;
      WrittenKept(w, w', kind);
    }
  }

  lemma WrittenKept(w: Wire, w': Wire, kind: Stream)
    requires forall j :: j in w.writers ==> j in w'.writers && w'.writers[j].kind == w.writers[j].kind
    ensures Written(w, kind) ==> Written(w', kind)
  {}

  lemma SameBytes(frames: seq<Frame>, frames': seq<Frame>, one: Writer)
    requires Carries(frames, one) && BytesOf(frames', one.kind) == BytesOf(frames, one.kind)
    ensures Carries(frames', one)
  {}

  lemma ExitKeepsInv(w: Wire, code: nat)
    requires Inv(w)
    ensures Inv(Apply(w, SendExit(code)))
  {
    hide Carries;
    var w' := Apply(w, SendExit(code));
    forall kind ensures BytesOf(w'.frames, kind) == BytesOf(w.frames, kind) {
      BytesSnoc(w.frames, Exit(code), kind);
      CatNil(BytesOf(w.frames, kind));
    }
    forall id | id in w'.writers ensures Carries(w'.frames, w'.writers[id]) {
      SameBytes(w.frames, w'.frames, w.writers[id]);
    }
    forall kind | !Written(w', kind) ensures BytesOf(w'.frames, kind) == "" { WrittenKept(w, w', kind); }
  }

  /** A step that sends nothing and changes one writer, which the stream still carries. */
  lemma WriterKeepsInv(w: Wire, id: nat, one: Writer)
    requires Inv(w) && Carries(w.frames, one) && (one.failed ==> Exited(w))
    requires forall j :: j in w.writers && w.writers[j].kind == one.kind ==> j == id
    requires id in w.writers ==> w.writers[id].kind == one.kind
    ensures Inv(w.(writers := w.writers[id := one]))
  {
    hide Carries;
    var w' := w.(writers := w.writers[id := one]);
    forall kind | !Written(w', kind) ensures BytesOf(w.frames, kind) == "" { WrittenKept(w, w', kind); }
  }

  lemma GivenCarried(frames: seq<Frame>, one: Writer, data: string)
    requires Carries(frames, one) && one.pending == ""
    ensures Carries(frames, one.(pending := data, given := one.given + data))
  {
    CatNil(BytesOf(frames, one.kind));
  }

  lemma StepKeepsInv(w: Wire, step: Step)
    requires Inv(w) && Enabled(w, step)
    ensures Inv(Apply(w, step))
  {
    match step {
      case Open(id, kind) =>
        assert !Written(w, kind);
        WriterKeepsInv(w, id, Writer(kind, "", "", false));
      case BeginWrite(id, data) =>
        var one := w.writers[id];
        GivenCarried(w.frames, one, data);
        WriterKeepsInv(w, id, one.(pending := data, given := one.given + data));
      case SendChunk(id) =>
        if Exited(w) {
          WriterKeepsInv(w, id, w.writers[id].(pending := "", failed := true));
        } else {
          ChunkKeepsInv(w, id);
        }
      case SendExit(code) => ExitKeepsInv(w, code);
    }
  }

  lemma {:induction false} RunKeepsInv(w: Wire, steps: seq<Step>)
    requires Inv(w) && Run(w, steps)
    ensures Inv(End(w, steps))
    decreases |steps|
  {
    if steps != [] {
      StepKeepsInv(w, steps[0]);
      RunKeepsInv(Apply(w, steps[0]), steps[1..]);
    }
  }

  /** For every interleaving of the writers and the exit, the reader decodes whole frames of at
      most CHUNK bytes and at most one exit, as the last. Each stream's bytes are a prefix of what
      its writer was given, in order, and all of it but what is pending unless a Write of that very
      writer came after the exit. */
  lemma ReaderSeesStreams(steps: seq<Step>, id: nat)
    requires Run(Wire([], map[]), steps)
    ensures var w := End(Wire([], map[]), steps);
            && Decode(EncodeAll(w.frames)) == Some(w.frames) && WellOrdered(w.frames)
            && (id in w.writers ==>
                  && BytesOf(w.frames, w.writers[id].kind) <= w.writers[id].given
                  && (w.writers[id].failed ==> Exited(w))
                  && (!w.writers[id].failed ==>
                        w.writers[id].given == BytesOf(w.frames, w.writers[id].kind) + w.writers[id].pending))
  {
    RunKeepsInv(Wire([], map[]), steps);
    DecodeEncode(End(Wire([], map[]), steps).frames);
  }
}
