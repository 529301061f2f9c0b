/** Reframing of an upstream byte stream on blank lines, as the streaming translator does it:
    bytes are appended to a buffer and every leftmost `\n\n` cuts one frame off its front. */
module SseFrames {
  import opened Common
  import opened Text

  type Byte = b: int | 0 <= b < 256

  type Bytes = seq<Byte>

  const NL: Byte := 10

  predicate BreakAt(s: Bytes, i: int) {
    0 <= i < |s| - 1 && s[i] == NL && s[i + 1] == NL
  }

  /** `bytes.find(b"\n\n")`: the leftmost break, if there is one. */
  function FindBreak(s: Bytes): (r: Option<nat>)
    ensures r.Some? ==> BreakAt(s, r.value) && forall j :: 0 <= j < r.value ==> !BreakAt(s, j)
    ensures r.None? ==> forall j :: !BreakAt(s, j)
  {
    if |s| < 2 then None
    else if BreakAt(s, 0) then Some(0)
    else
      var t := FindBreak(s[1..]);
      assert forall j :: 0 < j ==> (BreakAt(s, j) <==> BreakAt(s[1..], j - 1));
      if t.None? then None else Some(t.value + 1)
  }

  /** Complete frames and the bytes left in the buffer. */
  datatype Split = Split(frames: seq<Bytes>, rest: Bytes)

  function SplitFrames(s: Bytes): Split
    decreases |s|
  {
    match FindBreak(s)
    case None => Split([], s)
    case Some(i) =>
      var t := SplitFrames(s[i + 2..]);
      Split([s[..i]] + t.frames, t.rest)
  }

  /** The bytes a split stands for. */
  function Unsplit(x: Split): Bytes
    decreases |x.frames|
  {
    if x.frames == [] then x.rest
    else x.frames[0] + [NL, NL] + Unsplit(Split(x.frames[1..], x.rest))
  }

  ghost predicate NoBreak(s: Bytes) {
    forall j :: !BreakAt(s, j)
  }

  /** A split that cuts at the leftmost break every time: no frame, even extended by the first
      newline of its terminator, and no rest holds a break. */
  ghost predicate Leftmost(x: Split) {
    && (forall k :: 0 <= k < |x.frames| ==> NoBreak(x.frames[k] + [NL]))
    && NoBreak(x.rest)
  }

  lemma HeadHasNoBreak(s: Bytes, i: nat)
    requires FindBreak(s) == Some(i)
    ensures NoBreak(s[..i] + [NL]) && s == s[..i] + [NL, NL] + s[i + 2..]
  {
    forall j
      ensures !BreakAt(s[..i] + [NL], j)
    {
      assert 0 <= j < i ==> !BreakAt(s, j);
    }
  }

  lemma SplitOnce(head: Bytes, tail: Bytes)
    requires NoBreak(head + [NL])
    ensures SplitFrames(head + [NL, NL] + tail) == Split([head] + SplitFrames(tail).frames, SplitFrames(tail).rest)
  {
    var s := head + [NL, NL] + tail;
    assert BreakAt(s, |head|);
    forall j | 0 <= j < |head|
      ensures !BreakAt(s, j)
    {
      assert !BreakAt(head + [NL], j);
    }
    assert s[..|head|] == head && s[|head| + 2..] == tail;
  }

  /** Splitting is the only leftmost decomposition of the bytes. */
  lemma {:induction false} SplitIsTheLeftmostDecomposition(s: Bytes)
    ensures Unsplit(SplitFrames(s)) == s && Leftmost(SplitFrames(s))
    decreases |s|
  {
    match FindBreak(s) {
      case None =>
      case Some(i) =>
        hide NoBreak;
        HeadHasNoBreak(s, i);
        SplitIsTheLeftmostDecomposition(s[i + 2..]);
        var t := SplitFrames(s[i + 2..]);
        assert SplitFrames(s).frames[1..] == t.frames;
        LeftmostCons(s[..i], t);
    }
  }

  lemma LeftmostCons(head: Bytes, t: Split)
    requires NoBreak(head + [NL]) && Leftmost(t)
    ensures Leftmost(Split([head] + t.frames, t.rest))
  {
    hide NoBreak;
  }

  lemma {:induction false} LeftmostDecompositionIsUnique(x: Split)
    requires Leftmost(x)
    ensures SplitFrames(Unsplit(x)) == x
    decreases |x.frames|
  {
    if x.frames != [] {
      hide NoBreak;
      var y := Split(x.frames[1..], x.rest);
      LeftmostDecompositionIsUnique(y);
      SplitOnce(x.frames[0], Unsplit(y));
      assert x.frames == [x.frames[0]] + y.frames;
    }
  }

  lemma {:induction false} UnsplitAppend(f: seq<Bytes>, g: seq<Bytes>, r: Bytes)
    ensures Unsplit(Split(f + g, r)) == Unsplit(Split(f, Unsplit(Split(g, r))))
    decreases |f|
  {
    if f == [] {
      assert f + g == g;
    } else {
      assert (f + g)[1..] == f[1..] + g;
      UnsplitAppend(f[1..], g, r);
    }
  }

  lemma {:induction false} UnsplitRest(f: seq<Bytes>, r: Bytes, b: Bytes)
    ensures Unsplit(Split(f, r + b)) == Unsplit(Split(f, r)) + b
    decreases |f|
  {
    if f == [] {
    } else {
      UnsplitRest(f[1..], r, b);
      var head := f[0] + [NL, NL];
      assert head + (Unsplit(Split(f[1..], r)) + b) == head + Unsplit(Split(f[1..], r)) + b;
    }
  }

  /** A read only adds frames: splitting what has arrived so far and then splitting the buffer
      together with the new bytes finds the frames of the whole. */
  lemma SplitAppend(a: Bytes, b: Bytes)
    ensures var x := SplitFrames(a);
            var y := SplitFrames(x.rest + b);
            SplitFrames(a + b) == Split(x.frames + y.frames, y.rest)
  {
    var x := SplitFrames(a);
    var y := SplitFrames(x.rest + b);
    var z := Split(x.frames + y.frames, y.rest);
    SplitIsTheLeftmostDecomposition(a);
    SplitIsTheLeftmostDecomposition(x.rest + b);
    UnsplitAppend(x.frames, y.frames, y.rest);
    UnsplitRest(x.frames, x.rest, b);
    assert Unsplit(z) == a + b;
    assert Leftmost(z) by {
      hide NoBreak;
    }
    LeftmostDecompositionIsUnique(z);
  }

  predicate IsSpace(b: Byte) {
    b == 32 || 9 <= b <= 13
  }

  /** `bytes.strip()`. */
  function Strip(s: Bytes): Bytes {
    TrimBy(IsSpace, s)
  }

  const DATA: Bytes := [100, 97, 116, 97, 58, 32]
  const DONE: Bytes := [91, 68, 79, 78, 69, 93]

  datatype Frame = Blank | Done | Payload(bytes: Bytes)

  /** What one raw frame means to the translator. */
  function Classify(raw: Bytes): Frame {
    var f := Strip(raw);
    if f == [] then Blank
    else
      var g := if DATA <= f then f[|DATA|..] else f;
      if g == DONE then Done else Payload(g)
  }

  /** A frame is blank exactly if all its bytes are. */
  lemma BlankIffAllSpace(raw: Bytes)
    ensures Classify(raw).Blank? <==> All(IsSpace, raw)
  {
    if All(IsSpace, raw) {
      TrimOf(IsSpace, raw, [], []);
      assert raw + [] + [] == raw;
    } else {
      var a, b := TrimSplits(IsSpace, raw);
    }
  }

  /** A field with the prefix `data: ` is what stands behind the prefix. */
  lemma DataFrame(a: Bytes, p: Bytes, b: Bytes)
    requires All(IsSpace, a) && All(IsSpace, b) && p != [] && !IsSpace(p[|p| - 1])
    ensures Classify(a + DATA + p + b) == if p == DONE then Done else Payload(p)
  {
    var f := DATA + p;
    assert a + DATA + p + b == a + f + b;
    assert f[0] == 100 && f[|f| - 1] == p[|p| - 1];
    TrimOf(IsSpace, a, f, b);
    assert f[|DATA|..] == p && f[..|DATA|] == DATA;
  }

  /** Any other text between blanks is taken as it is. */
  lemma BareFrame(a: Bytes, f: Bytes, b: Bytes)
    requires All(IsSpace, a) && All(IsSpace, b) && f != [] && Trimmed(IsSpace, f) && !(DATA <= f)
    ensures Classify(a + f + b) == if f == DONE then Done else Payload(f)
  {
    TrimOf(IsSpace, a, f, b);
  }

  /** The three cases are all: a frame is blank, or a field with the prefix, or another text. */
  lemma FrameCases(raw: Bytes) returns (a: Bytes, f: Bytes, b: Bytes)
    ensures raw == a + f + b && All(IsSpace, a) && All(IsSpace, b) && Trimmed(IsSpace, f)
    ensures f == [] || !(DATA <= f) || exists p :: f == DATA + p && p != [] && !IsSpace(p[|p| - 1])
  {
    a, b := TrimSplits(IsSpace, raw);
    f := TrimBy(IsSpace, raw);
    if DATA <= f {
      hide TrimBy;
      var p := f[|DATA|..];
      assert f == DATA + p;
      BehindPrefix(p);
    }
  }

  lemma BehindPrefix(p: Bytes)
    requires Trimmed(IsSpace, DATA + p)
    ensures p != [] && !IsSpace(p[|p| - 1])
  {
    assert (DATA + p)[|DATA + p| - 1] == if p == [] then 32 else p[|p| - 1];
  }

  /** One upstream read: some bytes, none at end of file, or an exception. */
  datatype Read = Data(bytes: Bytes) | ReadError

  predicate Delivers(r: Read) {
    r.Data? && r.bytes != []
  }

  /** The bytes that arrive before the first read that delivers none. */
  function Received(input: seq<Read>): Bytes {
    if input == [] || !Delivers(input[0]) then [] else input[0].bytes + Received(input[1..])
  }

  /** Whether the stream ends in an exception rather than at end of file. */
  predicate Breaks(input: seq<Read>) {
    input != [] && (input[0].ReadError? || (Delivers(input[0]) && Breaks(input[1..])))
  }

  /** Any cutting of the bytes into non-empty reads delivers the bytes. */
  lemma {:induction false} ReceivedAnyCutting(parts: seq<Bytes>)
    requires forall k :: 0 <= k < |parts| ==> parts[k] != []
    ensures var input := seq(|parts|, i requires 0 <= i < |parts| => Data(parts[i]));
            Received(input) == Flatten(parts) && !Breaks(input)
  {
    if parts != [] {
      var input := seq(|parts|, i requires 0 <= i < |parts| => Data(parts[i]));
      var t := parts[1..];
      ReceivedAnyCutting(t);
      assert input[1..] == seq(|t|, i requires 0 <= i < |t| => Data(t[i]));
    }
  }

  /** A read error after some data breaks the stream, an empty read ends it; what would follow does not
      matter. */
  lemma {:induction false} StreamEnds(parts: seq<Bytes>, end: Read, rest: seq<Read>)
    requires (forall k :: 0 <= k < |parts| ==> parts[k] != []) && !Delivers(end)
    ensures var input := seq(|parts|, i requires 0 <= i < |parts| => Data(parts[i])) + [end] + rest;
            Received(input) == Flatten(parts) && (Breaks(input) <==> end.ReadError?)
  {
    var data := seq(|parts|, i requires 0 <= i < |parts| => Data(parts[i]));
    var input := data + [end] + rest;
    if parts != [] {
      var t := parts[1..];
      StreamEnds(t, end, rest);
      assert input[1..] == seq(|t|, i requires 0 <= i < |t| => Data(t[i])) + [end] + rest;
    }
  }
}
