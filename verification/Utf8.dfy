/** Truncation of log events: an event's bytes are collected and, when the event ends, written out whole
    or cut at a limit without splitting a character. */
module Utf8 {
  import opened Text

  type Byte = x: int | 0 <= x < 0x100

  // ---------- the encoding of section 3 of RFC 3629 ----------

  type Scalar = c: int | 0 <= c < 0xD800 || 0xE000 <= c < 0x110000

  function Encode(c: Scalar): seq<Byte> {
    if c < 0x80 then [c]
    else if c < 0x800 then [0xC0 + c / 0x40, 0x80 + c % 0x40]
    else if c < 0x10000 then [0xE0 + c / 0x1000, 0x80 + c / 0x40 % 0x40, 0x80 + c % 0x40]
    else [0xF0 + c / 0x40000, 0x80 + c / 0x1000 % 0x40, 0x80 + c / 0x40 % 0x40, 0x80 + c % 0x40]
  }

  function EncodeAll(cs: seq<Scalar>): seq<Byte>
    decreases |cs|
  {
    if cs == [] then [] else EncodeAll(cs[..|cs| - 1]) + Encode(cs[|cs| - 1])
  }

  ghost predicate ValidUtf8(s: seq<Byte>) {
    exists cs: seq<Scalar> :: s == EncodeAll(cs)
  }

  /** A byte of the form 10xxxxxx. */
  predicate Continuation(b: Byte) {
    0x80 <= b < 0xC0
  }

  lemma EncodeShape(c: Scalar)
    ensures 1 <= |Encode(c)| <= 4 && !Continuation(Encode(c)[0])
    ensures forall j :: 1 <= j < |Encode(c)| ==> Continuation(Encode(c)[j])
    ensures Encode(c)[|Encode(c)| - 1] == 0x0A <==> c == 0x0A
    ensures c == 0x0A ==> |Encode(c)| == 1
  {
  }

  lemma {:induction false} EncodeAppend(a: seq<Scalar>, b: seq<Scalar>)
    ensures EncodeAll(a + b) == EncodeAll(a) + EncodeAll(b)
    decreases |b|
  {
    hide Encode;
    if b == [] {
      assert a + b == a;
    } else {
      var n := |b| - 1;
      assert (a + b)[..|a| + n] == a + b[..n] && (a + b)[|a| + n] == b[n];
      EncodeAppend(a, b[..n]);
      assert EncodeAll(a) + EncodeAll(b[..n]) + Encode(b[n]) == EncodeAll(a) + (EncodeAll(b[..n]) + Encode(b[n]));
    }
  }

  // ---------- character boundaries ----------

  /** The length of the first `k` characters. */
  ghost function End(cs: seq<Scalar>, k: nat): nat
    requires k <= |cs|
  {
    |EncodeAll(cs[..k])|
  }

  lemma EndStep(cs: seq<Scalar>, k: nat)
    requires k < |cs|
    ensures EncodeAll(cs[..k + 1]) == EncodeAll(cs[..k]) + Encode(cs[k])
    ensures End(cs, k) < End(cs, k + 1)
  {
    hide Encode;
    EncodeShape(cs[k]);
    assert cs[..k + 1][..k] == cs[..k];
  }

  /** How many whole characters end within the first `limit` bytes. */
  ghost function Fit(cs: seq<Scalar>, limit: nat): (k: nat)
    ensures k <= |cs| && End(cs, k) <= limit
    decreases |cs|
  {
    if |EncodeAll(cs)| <= limit then
      assert cs[..|cs|] == cs;
      |cs|
    else
      var n := |cs| - 1;
      assert forall k | 0 <= k <= n :: cs[..n][..k] == cs[..k];
      Fit(cs[..n], limit)
  }

  lemma {:induction false} EndsGrow(cs: seq<Scalar>, k: nat, m: nat)
    requires k <= m <= |cs|
    ensures End(cs, k) <= End(cs, m)
    decreases m
  {
    if k < m {
      EndStep(cs, m - 1);
      EndsGrow(cs, k, m - 1);
    }
  }

  /** It is the greatest such number: one character more would be over the limit. */
  lemma {:induction false} FitIsGreatest(cs: seq<Scalar>, limit: nat)
    requires |EncodeAll(cs)| > limit
    ensures Fit(cs, limit) < |cs| && limit < End(cs, Fit(cs, limit) + 1)
    decreases |cs|
  {
    hide Encode;
    var n := |cs| - 1;
    assert cs[..|cs|] == cs;
    if |EncodeAll(cs[..n])| > limit {
      FitIsGreatest(cs[..n], limit);
      var k := Fit(cs[..n], limit);
      assert cs[..n][..k + 1] == cs[..k + 1];
    }
  }

  /** Inside a character there are only continuation bytes; each character starts with another byte. */
  lemma CharacterAt(cs: seq<Scalar>, k: nat)
    requires k < |cs|
    ensures End(cs, k) < End(cs, k + 1) <= |EncodeAll(cs)|
    ensures !Continuation(EncodeAll(cs)[End(cs, k)])
    ensures forall i :: End(cs, k) < i < End(cs, k + 1) ==> Continuation(EncodeAll(cs)[i])
  {
    hide Encode, Continuation;
    EndStep(cs, k);
    EncodeShape(cs[k]);
    EndsGrow(cs, k + 1, |cs|);
    assert cs[..|cs|] == cs;
    var head, c, tail := EncodeAll(cs[..k]), Encode(cs[k]), EncodeAll(cs[k + 1..]);
    assert cs == cs[..k + 1] + cs[k + 1..];
    EncodeAppend(cs[..k + 1], cs[k + 1..]);
    var s := EncodeAll(cs);
    assert s == head + c + tail;
    forall i | End(cs, k) < i < End(cs, k + 1)
      ensures Continuation(s[i])
    {
      assert s[i] == c[i - |head|];
    }
  }

  /** The condition of `str::is_char_boundary`. */
  predicate IsCharBoundary(s: seq<Byte>, i: nat) {
    i == 0 || i == |s| || (i < |s| && !Continuation(s[i]))
  }

  /** In a valid text the boundaries are exactly the ends of whole numbers of characters. */
  lemma BoundariesAreEnds(cs: seq<Scalar>, i: nat)
    ensures IsCharBoundary(EncodeAll(cs), i) <==> exists k :: 0 <= k <= |cs| && i == End(cs, k)
  {
    assert cs[..|cs|] == cs && cs[..0] == [];
    assert End(cs, 0) == 0 && End(cs, |cs|) == |EncodeAll(cs)|;
    hide EncodeAll, Continuation, End, Fit;
    var s := EncodeAll(cs);
    if i < |s| {
      var k := Fit(cs, i);
      FitIsGreatest(cs, i);
      CharacterAt(cs, k);
      if m :| 0 <= m <= |cs| && i == End(cs, m) {
        assert m < |cs|;
        CharacterAt(cs, m);
      }
    } else if m :| 0 <= m <= |cs| && i == End(cs, m) {
      EndsGrow(cs, m, |cs|);
    }
  }

  // ---------- the two searches ----------

  /** The greatest boundary at or before `pos`. */
  ghost predicate IsFloor(s: seq<Byte>, pos: nat, i: nat) {
    i <= pos && IsCharBoundary(s, i) && forall j :: i < j <= pos ==> !IsCharBoundary(s, j)
  }

  /** `utf8_floor`; a position at or past the end would panic, unless it is 0. */
  method Utf8Floor(bytes: seq<Byte>, pos: nat) returns (i: nat)
    requires pos == 0 || pos < |bytes|
    ensures IsFloor(bytes, pos, i)
  {
    i := pos;
    while i > 0 && Continuation(bytes[i])
      invariant i <= pos
      invariant forall j :: i < j <= pos ==> Continuation(bytes[j])
    {
      i := i - 1;
    }
  }

  /** `floor_char_boundary`, for any position. */
  method FloorCharBoundary(s: seq<Byte>, pos: nat) returns (i: nat)
    ensures pos < |s| ==> IsFloor(s, pos, i)
    ensures pos >= |s| ==> i == |s|
  {
    if pos >= |s| {
      return |s|;
    }
    i := pos;
    while i > 0 && !IsCharBoundary(s, i)
      invariant i <= pos
      invariant forall j :: i < j <= pos ==> !IsCharBoundary(s, j)
    {
      i := i - 1;
    }
  }

  /** There is one floor only, so both searches cut at the same place on any bytes. */
  lemma FloorIsUnique(s: seq<Byte>, pos: nat, i: nat, j: nat)
    requires IsFloor(s, pos, i) && IsFloor(s, pos, j)
    ensures i == j
  {
    assert i < j <= pos ==> !IsCharBoundary(s, j);
    assert j < i <= pos ==> !IsCharBoundary(s, i);
  }

  /** In a valid text the floor is the end of the longest whole-character prefix within the limit. */
  lemma FloorIsLongestPrefix(cs: seq<Scalar>, limit: nat)
    requires limit < |EncodeAll(cs)|
    ensures IsFloor(EncodeAll(cs), limit, End(cs, Fit(cs, limit)))
  {
    hide Encode, Fit;
    var k := Fit(cs, limit);
    var s := EncodeAll(cs);
    BoundariesAreEnds(cs, End(cs, k));
    FitIsGreatest(cs, limit);
    CharacterAt(cs, k);
    assert forall j :: End(cs, k) < j <= limit ==> Continuation(s[j]);
  }

  // ---------- the event buffer ----------

  function Suffix(total: nat): string {
    "...[" + Decimal(total) + "B total]\n"
  }

  /** Text below U+0080 as bytes: one byte a character. */
  function AsciiBytes(s: string): seq<Byte>
    requires forall i :: 0 <= i < |s| ==> s[i] < 128 as char
  {
    seq(|s|, i requires 0 <= i < |s| => s[i] as int)
  }

  lemma SuffixIsAscii(n: nat)
    ensures forall i :: 0 <= i < |Suffix(n)| ==> Suffix(n)[i] < 128 as char
  {
    hide Decimal;
    DecimalIsDigits(n);
  }

  function SuffixBytes(total: nat): seq<Byte> {
    SuffixIsAscii(total);
    AsciiBytes(Suffix(total))
  }

  lemma {:induction false} AsciiIsItsOwnEncoding(s: seq<Byte>)
    requires forall i :: 0 <= i < |s| ==> s[i] < 0x80
    ensures EncodeAll(s) == s
    decreases |s|
  {
    if s != [] {
      AsciiIsItsOwnEncoding(s[..|s| - 1]);
      assert s == s[..|s| - 1] + [s[|s| - 1]];
    }
  }

  /** A text without one newline at its end. */
  function TrimNewline(s: seq<int>): (r: seq<int>)
    ensures r <= s
  {
    if s != [] && s[|s| - 1] == 0x0A then s[..|s| - 1] else s
  }

  /** What a dropped buffer writes: nothing for no bytes, a buffer within the limit as it is, and
      otherwise the cut, less one newline, and a note of the whole length. */
  ghost predicate Written(buf: seq<Byte>, limit: nat, out: seq<Byte>) {
    if |buf| <= limit then out == buf
    else exists cut: nat :: cut <= |buf| && IsFloor(buf, limit, cut) && out == TrimNewline(buf[..cut]) + SuffixBytes(|buf|)
  }

  class EventBuffer {
    var buf: seq<Byte>
    const maxBytes: nat

    constructor (maxBytes: nat)
      ensures buf == [] && this.maxBytes == maxBytes
    {
      buf := [];
      this.maxBytes := maxBytes;
    }

    method Write(data: seq<Byte>) returns (n: nat)
      modifies this
      ensures buf == old(buf) + data && n == |data|
    {
      buf := buf + data;
      n := |data|;
    }

    /** What `drop` writes out. */
    method Drop() returns (out: seq<Byte>)
      ensures Written(buf, maxBytes, out)
    {
      hide SuffixBytes;
      if buf == [] {
        return [];
      }
      if |buf| <= maxBytes {
        return buf;
      }
      var cut := Utf8Floor(buf, maxBytes);
      var slice := buf[..cut];
      var trimmed := slice;
      if slice != [] && slice[|slice| - 1] == 0x0A {
        trimmed := slice[..|slice| - 1];
      }
      out := trimmed + SuffixBytes(|buf|);
    }
  }

  /** A newline byte ends the bytes exactly if a newline character ends the text. */
  lemma TrimCommutes(cs: seq<Scalar>)
    ensures TrimNewline(EncodeAll(cs)) == EncodeAll(TrimNewline(cs))
  {
    hide Encode;
    if cs != [] {
      var n := |cs| - 1;
      EncodeShape(cs[n]);
      var head, c := EncodeAll(cs[..n]), Encode(cs[n]);
      assert (head + c)[|head + c| - 1] == c[|c| - 1];
      assert (head + c)[..|head|] == head;
    }
  }

  /** Dropping a buffer of valid UTF-8 writes valid UTF-8, whatever the limit and however the writes cut
      the text: the longest whole-character prefix within the limit, less one newline, and the note. */
  lemma DropWritesWholeCharacters(cs: seq<Scalar>, limit: nat, out: seq<Byte>)
    requires Written(EncodeAll(cs), limit, out)
    ensures ValidUtf8(out)
    ensures out == if |EncodeAll(cs)| <= limit then EncodeAll(cs)
                   else EncodeAll(TrimNewline(cs[..Fit(cs, limit)]) + SuffixBytes(|EncodeAll(cs)|))
  {
    hide EncodeAll, Encode, Suffix, Fit, IsFloor, TrimNewline;
    var s := EncodeAll(cs);
    if |s| > limit {
      var cut: nat :| cut <= |s| && IsFloor(s, limit, cut) && out == TrimNewline(s[..cut]) + SuffixBytes(|s|);
      var k := Fit(cs, limit);
      FloorIsLongestPrefix(cs, limit);
      FloorIsUnique(s, limit, cut, End(cs, k));
      PrefixBytes(cs, k);
      TrimCommutes(cs[..k]);
      SuffixIsAscii(|s|);
      AsciiIsItsOwnEncoding(SuffixBytes(|s|));
      EncodeAppend(TrimNewline(cs[..k]), SuffixBytes(|s|));
    }
  }

  lemma PrefixBytes(cs: seq<Scalar>, k: nat)
    requires k <= |cs|
    ensures End(cs, k) <= |EncodeAll(cs)| && EncodeAll(cs)[..End(cs, k)] == EncodeAll(cs[..k])
  {
    hide EncodeAll;
    assert cs == cs[..k] + cs[k..];
    EncodeAppend(cs[..k], cs[k..]);
  }
}
