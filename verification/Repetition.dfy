/** The proxy's guard against a model stuck on one character: a rolling window over the forwarded stream. */
module Repetition {
  import opened Common

  const WINDOW: nat := 2048
  const MIN_WINDOW: nat := 1024

  /** The last `n` elements, or all if there are fewer. */
  function Last<T>(s: seq<T>, n: nat): (r: seq<T>)
    ensures |r| <= n
  {
    if |s| <= n then s else s[|s| - n..]
  }

  lemma LastOfLast<T>(a: seq<T>, b: seq<T>, n: nat)
    ensures Last(Last(a, n) + b, n) == Last(a + b, n)
  {
  }

  function Count(w: seq<int>, b: int): (c: nat)
    ensures c <= |w|
    decreases |w|
  {
    if w == [] then 0 else Count(w[..|w| - 1], b) + if w[|w| - 1] == b then 1 else 0
  }

  /** One byte value makes up more than 85 percent of a window of at least 1024 bytes. The source divides
      in floating point; windows are short enough for the quotient to compare as the fraction does. */
  ghost predicate Degenerate(w: seq<int>) {
    |w| >= MIN_WINDOW && exists b :: 100 * Count(w, b) > 85 * |w|
  }

  class Detector {
    var window: seq<int>

    constructor ()
      ensures window == []
    {
      window := [];
    }

    /** `_detect_degenerate_stream`. */
    method Detect(chunk: seq<int>) returns (degenerate: bool)
      modifies this
      ensures window == Last(old(window) + chunk, WINDOW)
      ensures degenerate <==> Degenerate(window)
    {
      window := window + chunk;
      if |window| > WINDOW {
        window := window[|window| - WINDOW..];
      }
      if |window| < MIN_WINDOW {
        return false;
      }
      var counts := Tally(window);
      var max := Greatest(window, counts);
      degenerate := 100 * max > 85 * |window|;
    }
  }

  /** The loop that counts the bytes of the window. */
  method Tally(w: seq<int>) returns (counts: map<int, nat>)
    ensures counts.Keys == set b | b in w
    ensures forall b :: b in counts ==> counts[b] == Count(w, b)
  {
    counts := map[];
    for i := 0 to |w|
      invariant counts.Keys == set b | b in w[..i]
      invariant forall b :: b in counts ==> counts[b] == Count(w[..i], b)
    {
      var b := w[i];
      if b !in counts {
        Absent(w[..i], b);
      }
      assert w[..i + 1][..i] == w[..i];
      counts := counts[b := (if b in counts then counts[b] else 0) + 1];
    }
    assert w[..|w|] == w;
  }

  lemma {:induction false} Absent(w: seq<int>, b: int)
    requires b !in w
    ensures Count(w, b) == 0
    decreases |w|
  {
    if w != [] {
      Absent(w[..|w| - 1], b);
    }
  }

  /** The greatest of the counts: that of the most frequent byte. */
  method Greatest(w: seq<int>, counts: map<int, nat>) returns (max: nat)
    requires w != [] && counts.Keys == set b | b in w
    requires forall b :: b in counts ==> counts[b] == Count(w, b)
    ensures forall b :: Count(w, b) <= max
    ensures exists b :: Count(w, b) == max
  {
    assert w[0] in w;
    var todo: set<int> := counts.Keys - {w[0]};
    max := counts[w[0]];
    ghost var best := w[0];
    while todo != {}
      invariant todo <= counts.Keys
      invariant forall b :: b in counts && b !in todo ==> counts[b] <= max
      invariant best in counts && counts[best] == max
      decreases |todo|
    {
      Inhabited(todo);
      var b :| b in todo;
      if counts[b] > max {
        max, best := counts[b], b;
      }
      todo := todo - {b};
    }
    assert Count(w, best) == max;
    forall b
      ensures Count(w, b) <= max
    {
      if b !in w {
        Absent(w, b);
      } else {
        assert b in counts;
      }
    }
  }

  lemma Inhabited(s: set<int>)
    requires s != {}
    ensures exists b :: b in s
  {
    assert (forall b :: b !in s) ==> s == {};
  }

  // ---------- however the stream is cut ----------

  /** The window after a sequence of calls. */
  function WindowAfter(chunks: seq<seq<int>>): seq<int>
    decreases |chunks|
  {
    if chunks == [] then [] else Last(WindowAfter(chunks[..|chunks| - 1]) + chunks[|chunks| - 1], WINDOW)
  }

  /** It is the end of all that was fed; the cuts between the chunks do not matter. */
  lemma {:induction false} WindowIsTheEnd(chunks: seq<seq<int>>)
    ensures WindowAfter(chunks) == Last(Flatten(chunks), WINDOW)
    decreases |chunks|
  {
    if chunks != [] {
      hide Last;
      var n := |chunks| - 1;
      WindowIsTheEnd(chunks[..n]);
      FlattenSnoc(chunks, n);
      assert chunks[..n + 1] == chunks;
      LastOfLast(Flatten(chunks[..n]), chunks[n], WINDOW);
    } else {
      LastOfNothing();
    }
  }

  lemma LastOfNothing()
    ensures Last<int>([], WINDOW) == []
  {
  }

  lemma FlattenSnoc<T>(chunks: seq<seq<T>>, n: nat)
    requires n < |chunks|
    ensures Flatten(chunks[..n + 1]) == Flatten(chunks[..n]) + chunks[n]
  {
    FlattenAppend(chunks[..n], [chunks[n]]);
    assert chunks[..n + 1] == chunks[..n] + [chunks[n]];
    assert [chunks[n]][1..] == [];
    assert Flatten([chunks[n]]) == chunks[n] + [];
  }

  // ---------- the forwarding loop ----------

  /** The stream, after its first `n` reads, looks stuck. */
  ghost predicate Stuck(chunks: seq<seq<int>>, n: nat)
    requires n <= |chunks|
  {
    Degenerate(Last(Flatten(chunks[..n]), WINDOW))
  }

  /** The streaming loop: `chunks` are the reads before the empty one that ends the stream, `writable`
      how many writes the client takes. The result is what was forwarded, in how many chunks, and
      whether the stream was cut off for repetition. */
  method Forward(chunks: seq<seq<int>>, hasTools: bool, writable: nat)
    returns (out: seq<int>, sent: nat, aborted: bool)
    requires forall i :: 0 <= i < |chunks| ==> chunks[i] != []
    ensures sent <= |chunks| && sent <= writable && out == Flatten(chunks[..sent])
    ensures aborted <==> sent < |chunks| && !hasTools && Stuck(chunks, sent + 1)
    ensures !aborted ==> sent == |chunks| || sent == writable
    ensures !hasTools ==> forall n :: 0 < n <= sent ==> !Stuck(chunks, n)
  {
    hide Degenerate, Last;
    var detector := new Detector();
    out, sent, aborted := [], 0, false;
    LastOfNothing();
    while sent < |chunks|
      invariant sent <= |chunks| && sent <= writable && out == Flatten(chunks[..sent])
      invariant !hasTools ==> detector.window == Last(Flatten(chunks[..sent]), WINDOW)
      invariant !hasTools ==> forall n :: 0 < n <= sent ==> !Stuck(chunks, n)
      invariant !aborted
      decreases |chunks| - sent
    {
      FlattenSnoc(chunks, sent);
      if !hasTools {
        LastOfLast(Flatten(chunks[..sent]), chunks[sent], WINDOW);
        var stuck := detector.Detect(chunks[sent]);
        if stuck {
          return out, sent, true;
        }
      }
      if sent == writable {
        return;
      }
      out := out + chunks[sent];
      sent := sent + 1;
    }
  }
}
