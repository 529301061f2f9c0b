/** The panic checker's view of Rust sources: a line lexer that blanks out comments and literals, and
    a brace tracker that tells test code from production code. The regular expressions that recognise
    attributes and items are parameters. */
module NoPanics {
  import opened Common
  import opened Text

  /** The lexer's state between characters and between lines. */
  datatype Lexer = Lexer(depth: nat, inString: bool, stringEscape: bool, inChar: bool, charEscape: bool, raw: Option<nat>)

  const CODE := Lexer(0, false, false, false, false, None)

  function Spaces(n: nat): (r: string)
    ensures |r| == n && forall i :: 0 <= i < n ==> r[i] == ' '
  {
    seq(n, i => ' ')
  }

  /** The number of leading hash signs. */
  function Hashes(s: string): (n: nat)
    ensures n <= |s| && (forall i :: 0 <= i < n ==> s[i] == '#') && (n < |s| ==> s[n] != '#')
  {
    if s != "" && s[0] == '#' then 1 + Hashes(s[1..]) else 0
  }

  predicate Starts(s: string, a: char, b: char) {
    |s| >= 2 && s[0] == a && s[1] == b
  }

  /** What one round of the lexer does to the rest of the line: how much it reads, whether it copies
      the (single) character or blanks it, and the state it leaves. */
  datatype Round = Round(width: nat, copies: bool, next: Lexer)

  function InComment(s: string, st: Lexer): Round
    requires s != "" && st.depth > 0
  {
    if Starts(s, '/', '*') then Round(2, false, st.(depth := st.depth + 1))
    else if Starts(s, '*', '/') then Round(2, false, st.(depth := st.depth - 1))
    else Round(1, false, st)
  }

  function InRaw(s: string, st: Lexer): Round
    requires s != "" && st.raw.Some?
  {
    if s[0] == '"' && Hashes(s[1..]) == st.raw.value then Round(1 + st.raw.value, false, st.(raw := None))
    else Round(1, false, st)
  }

  function InString(s: string, st: Lexer): Round
    requires s != ""
  {
    Round(1, false,
      if st.stringEscape then st.(stringEscape := false)
      else if s[0] == '\\' then st.(stringEscape := true)
      else if s[0] == '"' then st.(inString := false)
      else st)
  }

  function InChar(s: string, st: Lexer): Round
    requires s != ""
  {
    Round(1, false,
      if st.charEscape then st.(charEscape := false)
      else if s[0] == '\\' then st.(charEscape := true)
      else if s[0] == '\'' then st.(inChar := false)
      else st)
  }

  function InCode(s: string, st: Lexer): Round
    requires s != ""
  {
    if Starts(s, '/', '/') then Round(|s|, false, st)
    else if Starts(s, '/', '*') then Round(2, false, st.(depth := st.depth + 1))
    else
      var h := Hashes(s[1..]);
      if s[0] == 'r' && 1 + h < |s| && s[1 + h] == '"' then Round(h + 2, false, st.(raw := Some(h)))
      else if s[0] == '"' then Round(1, false, st.(inString := true))
      else if s[0] == '\'' then Round(1, false, st.(inChar := true))
      else Round(1, true, st)
  }

  function OneRound(s: string, st: Lexer): (r: Round)
    requires s != ""
    ensures 1 <= r.width <= |s| && (r.copies ==> r.width == 1)
  {
    if st.depth > 0 then InComment(s, st)
    else if st.raw.Some? then InRaw(s, st)
    else if st.inString then InString(s, st)
    else if st.inChar then InChar(s, st)
    else InCode(s, st)
  }

  datatype Masked = Masked(code: string, state: Lexer)

  function Mask(s: string, st: Lexer): Masked
    decreases |s|
  {
    if s == "" then Masked("", st)
    else
      var r := OneRound(s, st);
      var m := Mask(s[r.width..], r.next);
      Masked((if r.copies then [s[0]] else Spaces(r.width)) + m.code, m.state)
  }

  class LexerState {
    var st: Lexer

    constructor ()
      ensures st == CODE
    {
      st := CODE;
    }

    /** The hash signs from place `j` on. */
    method CountHashes(line: string, j: nat) returns (k: nat)
      requires j <= |line|
      ensures j <= k <= |line| && k - j == Hashes(line[j..])
    {
      k := j;
      while k < |line| && line[k] == '#'
        invariant j <= k <= |line|
        invariant Hashes(line[j..]) == k - j + Hashes(line[k..])
      {
        assert line[k..][1..] == line[k + 1..];
        k := k + 1;
      }
    }

    /** One round of the loop at place `i`: how far it moves and whether it copies the character. */
    method ReadRound(line: string, i: nat) returns (width: nat, copies: bool)
      requires i < |line|
      modifies this
      ensures Round(width, copies, st) == OneRound(line[i..], old(st))
    {
      var ch := line[i];
      var nxt := if i + 1 < |line| then line[i + 1] else ' ';
      width, copies := 1, false;
      assert line[i..][0] == ch && line[i..][1..] == line[i + 1..];
      if st.depth > 0 {
        if ch == '/' && nxt == '*' {
          st := st.(depth := st.depth + 1);
          width := 2;
        } else if ch == '*' && nxt == '/' {
          st := st.(depth := st.depth - 1);
          width := 2;
        }
      } else if st.raw.Some? {
        if ch == '"' {
          var j := CountHashes(line, i + 1);
          if j - (i + 1) == st.raw.value {
            st := st.(raw := None);
            width := j - i;
          }
        }
      } else if st.inString {
        if st.stringEscape {
          st := st.(stringEscape := false);
        } else if ch == '\\' {
          st := st.(stringEscape := true);
        } else if ch == '"' {
          st := st.(inString := false);
        }
      } else if st.inChar {
        if st.charEscape {
          st := st.(charEscape := false);
        } else if ch == '\\' {
          st := st.(charEscape := true);
        } else if ch == '\'' {
          st := st.(inChar := false);
        }
      } else {
        width, copies := ReadCode(line, i);
      }
    }

    /** The round in code. */
    method ReadCode(line: string, i: nat) returns (width: nat, copies: bool)
      requires i < |line|
      modifies this
      ensures Round(width, copies, st) == InCode(line[i..], old(st))
    {
      var ch := line[i];
      var nxt := if i + 1 < |line| then line[i + 1] else ' ';
      assert line[i..][1..] == line[i + 1..];
      if ch == '/' && nxt == '/' {
        return |line| - i, false;
      }
      if ch == '/' && nxt == '*' {
        st := st.(depth := st.depth + 1);
        return 2, false;
      }
      if ch == 'r' {
        var j := CountHashes(line, i + 1);
        if j < |line| && line[j] == '"' {
          st := st.(raw := Some(j - i - 1));
          return j + 1 - i, false;
        }
      }
      if ch == '"' {
        st := st.(inString := true);
        return 1, false;
      }
      if ch == '\'' {
        st := st.(inChar := true);
        return 1, false;
      }
      return 1, true;
    }

    /** `sanitize_line`: one pass over the line, filling a blank copy. */
    method SanitizeLine(line: string) returns (out: string)
      modifies this
      ensures Masked(out, st) == Mask(line, old(st))
    {
      hide OneRound;
      out := Spaces(|line|);
      var i := 0;
      while i < |line|
        invariant 0 <= i <= |line| == |out|
        invariant forall k :: i <= k < |line| ==> out[k] == ' '
        invariant Mask(line, old(st)) == Glue(out[..i], Mask(line[i..], st))
        decreases |line| - i
      {
        ghost var here := st;
        var width, copies := ReadRound(line, i);
        ghost var piece := if copies then [line[i]] else Spaces(width);
        assert line[i..][width..] == line[i + width..];
        assert Mask(line[i..], here) == Glue(piece, Mask(line[i + width..], st));
        GlueGlue(out[..i], piece, Mask(line[i + width..], st));
        ghost var before := out;
        if copies {
          out := out[i := line[i]];
        }
        assert out[..i + width] == before[..i] + piece;
        i := i + width;
      }
      assert out[..i] == out && out + "" == out;
    }
  }

  function Glue(prefix: string, m: Masked): Masked {
    Masked(prefix + m.code, m.state)
  }

  lemma GlueGlue(a: string, b: string, m: Masked)
    ensures Glue(a, Glue(b, m)) == Glue(a + b, m)
  {
    assert a + (b + m.code) == a + b + m.code;
  }

  /** Masking keeps the length and puts, at every place, the original character or a blank. */
  lemma {:induction false} MaskKeepsPlaces(s: string, st: Lexer)
    ensures |Mask(s, st).code| == |s|
    ensures forall i :: 0 <= i < |s| ==> Mask(s, st).code[i] == s[i] || Mask(s, st).code[i] == ' '
    decreases |s|
  {
    if s != "" {
      hide OneRound;
      var r := OneRound(s, st);
      MaskKeepsPlaces(s[r.width..], r.next);
    }
  }

  // ---------- literals and comments are blank ----------

  lemma MaskRound(s: string, st: Lexer, width: nat, next: Lexer)
    requires s != "" && OneRound(s, st) == Round(width, false, next)
    ensures Mask(s, st) == Masked(Spaces(width) + Mask(s[width..], next).code, Mask(s[width..], next).state)
  {
  }

  function Blank(n: nat, m: Masked): Masked {
    Masked(Spaces(n) + m.code, m.state)
  }

  lemma BlankBlank(a: nat, b: nat, m: Masked)
    ensures Blank(a, Blank(b, m)) == Blank(a + b, m)
  {
    assert Spaces(a) + (Spaces(b) + m.code) == Spaces(a + b) + m.code;
  }

  lemma CommentBracketsNest(rest: string, depth: nat)
    ensures Mask("/*" + rest, CODE.(depth := depth)) == Blank(2, Mask(rest, CODE.(depth := depth + 1)))
    ensures Mask("*/" + rest, CODE.(depth := depth + 1)) == Blank(2, Mask(rest, CODE.(depth := depth)))
  {
    hide Mask;
    var a, b := "/*" + rest, "*/" + rest;
    assert a[2..] == rest && b[2..] == rest;
    MaskRound(a, CODE.(depth := depth), 2, CODE.(depth := depth + 1));
    MaskRound(b, CODE.(depth := depth + 1), 2, CODE.(depth := depth));
  }

  /** A line comment blanks the rest of the line. */
  lemma LineCommentIsBlank(rest: string)
    ensures Mask("//" + rest, CODE) == Masked(Spaces(|rest| + 2), CODE)
  {
    var s := "//" + rest;
    MaskRound(s, CODE, |s|, CODE);
    assert Spaces(|s|) + "" == Spaces(|s|);
  }

  function Fence(h: nat): (r: string)
    ensures |r| == h && forall i :: 0 <= i < h ==> r[i] == '#'
  {
    seq(h, i => '#')
  }

  lemma HashesOf(h: nat, rest: string)
    requires rest == "" || rest[0] != '#'
    ensures Hashes(Fence(h) + rest) == h
  {
    var s := Fence(h) + rest;
    assert forall i :: 0 <= i < h ==> s[i] == '#';
    assert h < |s| ==> s[h] != '#';
  }

  lemma RawGoesOn(s: string, h: nat)
    requires s != "" && (s[0] == '"' ==> Hashes(s[1..]) != h)
    ensures Mask(s, CODE.(raw := Some(h))) == Blank(1, Mask(s[1..], CODE.(raw := Some(h))))
  {
    hide Mask;
    MaskRound(s, CODE.(raw := Some(h)), 1, CODE.(raw := Some(h)));
  }

  lemma RawOpens(h: nat, after: string)
    ensures Mask("r" + Fence(h) + "\"" + after, CODE) == Blank(h + 2, Mask(after, CODE.(raw := Some(h))))
  {
    hide Mask;
    var s := "r" + Fence(h) + "\"" + after;
    assert s[1..] == Fence(h) + ("\"" + after);
    HashesOf(h, "\"" + after);
    assert s[h + 2..] == after && s[1 + h] == '"';
    MaskRound(s, CODE, h + 2, CODE.(raw := Some(h)));
  }

  // ---------- text that goes on from line to line ----------

  /** The lexer inside a literal with this quote, behind a backslash if `escaped`. */
  function Quoted(quote: char, escaped: bool): Lexer {
    if quote == '"' then CODE.(inString := true, stringEscape := escaped)
    else CODE.(inChar := true, charEscape := escaped)
  }

  /** The character at place `i` is escaped: it stands behind a backslash that is not escaped itself.
      `escaped` says it of the first character. */
  predicate EscapedAt(s: string, i: nat, escaped: bool)
    requires i <= |s|
  {
    if i == 0 then escaped else s[i - 1] == '\\' && !EscapedAt(s, i - 1, escaped)
  }

  predicate BareQuote(s: string, i: nat, quote: char, escaped: bool)
    requires i < |s|
  {
    s[i] == quote && !EscapedAt(s, i, escaped)
  }

  lemma {:induction false} EscapedInTail(s: string, i: nat, escaped: bool)
    requires i < |s|
    ensures EscapedAt(s, i + 1, escaped) == EscapedAt(s[1..], i, EscapedAt(s, 1, escaped))
  {
    if i > 0 {
      EscapedInTail(s, i - 1, escaped);
    }
  }

  function Shift(n: nat, r: Option<nat>): Option<nat> {
    if r.None? then None else Some(n + r.value)
  }

  /** The place of the first bare quote. */
  function FirstBare(s: string, quote: char, escaped: bool): (r: Option<nat>)
    ensures r.Some? ==> r.value < |s|
    decreases |s|
  {
    if s == "" then None
    else if BareQuote(s, 0, quote, escaped) then Some(0)
    else Shift(1, FirstBare(s[1..], quote, EscapedAt(s, 1, escaped)))
  }

  lemma BareInTail(s: string, i: nat, quote: char, escaped: bool)
    requires 0 < i < |s|
    ensures BareQuote(s, i, quote, escaped) == BareQuote(s[1..], i - 1, quote, EscapedAt(s, 1, escaped))
  {
    EscapedInTail(s, i - 1, escaped);
  }

  /** It is bare, and no quote before it is; without one, none on the line is. */
  lemma {:induction false} FirstBareIsFirst(s: string, quote: char, escaped: bool, i: nat)
    requires i < |s|
    ensures var r := FirstBare(s, quote, escaped);
            && (r.None? || i < r.value ==> !BareQuote(s, i, quote, escaped))
            && (r == Some(i) ==> BareQuote(s, i, quote, escaped))
    decreases |s|
  {
    if i > 0 && !BareQuote(s, 0, quote, escaped) {
      hide BareQuote, EscapedAt;
      BareInTail(s, i, quote, escaped);
      FirstBareIsFirst(s[1..], quote, EscapedAt(s, 1, escaped), i - 1);
    }
  }

  lemma QuotedGoesOn(s: string, quote: char, escaped: bool)
    requires s != "" && (quote == '"' || quote == '\'') && !BareQuote(s, 0, quote, escaped)
    ensures Mask(s, Quoted(quote, escaped)) == Blank(1, Mask(s[1..], Quoted(quote, EscapedAt(s, 1, escaped))))
  {
    hide Mask;
    assert EscapedAt(s, 0, escaped) == escaped;
    assert EscapedAt(s, 1, escaped) == (s[0] == '\\' && !escaped);
    hide EscapedAt;
    var st, next := Quoted(quote, escaped), Quoted(quote, EscapedAt(s, 1, escaped));
    assert OneRound(s, st) == Round(1, false, next);
    MaskRound(s, st, 1, next);
  }

  lemma QuotedEnds(s: string, quote: char, escaped: bool)
    requires s != "" && (quote == '"' || quote == '\'') && BareQuote(s, 0, quote, escaped)
    ensures Mask(s, Quoted(quote, escaped)) == Blank(1, Mask(s[1..], CODE))
  {
    hide Mask;
    MaskRound(s, Quoted(quote, escaped), 1, CODE);
  }

  /** From inside a literal to its first bare quote all is blank, and without one to the end of the line,
      where the literal is still open. */
  lemma {:induction false} QuotedTextIsBlank(s: string, quote: char, escaped: bool)
    requires quote == '"' || quote == '\''
    ensures var r := FirstBare(s, quote, escaped);
            Mask(s, Quoted(quote, escaped)) ==
            if r.Some? then Blank(r.value + 1, Mask(s[r.value + 1..], CODE))
            else Masked(Spaces(|s|), Quoted(quote, EscapedAt(s, |s|, escaped)))
    decreases |s|
  {
    hide Mask, BareQuote, Quoted, Blank, Spaces, EscapedAt, FirstBare;
    QuotedCases(s, quote, escaped);
    if s == "" {
      MaskNothing(Quoted(quote, escaped));
    } else if BareQuote(s, 0, quote, escaped) {
      QuotedEnds(s, quote, escaped);
    } else {
      var e := EscapedAt(s, 1, escaped);
      QuotedGoesOn(s, quote, escaped);
      QuotedTextIsBlank(s[1..], quote, e);
      var r := FirstBare(s[1..], quote, e);
      if r.Some? {
        assert s[1..][r.value + 1..] == s[r.value + 2..];
        BlankBlank(1, r.value + 1, Mask(s[r.value + 2..], CODE));
      } else {
        BlankSpaces(1, |s| - 1, Quoted(quote, EscapedAt(s, |s|, escaped)));
      }
    }
  }

  lemma QuotedCases(s: string, quote: char, escaped: bool)
    ensures s == "" ==> FirstBare(s, quote, escaped).None? && EscapedAt(s, 0, escaped) == escaped
    ensures s != "" && BareQuote(s, 0, quote, escaped) ==> FirstBare(s, quote, escaped) == Some(0)
    ensures s != "" && !BareQuote(s, 0, quote, escaped) ==>
              FirstBare(s, quote, escaped) == Shift(1, FirstBare(s[1..], quote, EscapedAt(s, 1, escaped)))
    ensures s != "" ==> EscapedAt(s, |s|, escaped) == EscapedAt(s[1..], |s| - 1, EscapedAt(s, 1, escaped))
  {
    if s != "" {
      EscapedInTail(s, |s| - 1, escaped);
    }
  }

  lemma MaskNothing(st: Lexer)
    ensures Mask("", st) == Masked(Spaces(0), st)
  {
    assert Spaces(0) == "";
  }

  lemma BlankSpaces(a: nat, b: nat, st: Lexer)
    ensures Blank(a, Masked(Spaces(b), st)) == Masked(Spaces(a + b), st)
  {
    assert Spaces(a) + Spaces(b) == Spaces(a + b);
  }

  /** The first quote of the line that has exactly `h` hashes behind it. */
  function FirstFence(s: string, h: nat): (r: Option<nat>)
    ensures r.Some? ==> r.value + 1 + h <= |s|
  {
    if s == "" then None
    else if s[0] == '"' && Hashes(s[1..]) == h then Some(0)
    else Shift(1, FirstFence(s[1..], h))
  }

  lemma {:induction false} FirstFenceIsFirst(s: string, h: nat, i: nat)
    requires i < |s|
    ensures var r := FirstFence(s, h);
            && (r.None? || i < r.value ==> !(s[i] == '"' && Hashes(s[i + 1..]) == h))
            && (r == Some(i) ==> s[i] == '"' && Hashes(s[i + 1..]) == h)
    decreases |s|
  {
    if i > 0 && !(s[0] == '"' && Hashes(s[1..]) == h) {
      hide Hashes;
      assert s[1..][i - 1] == s[i] && s[1..][i..] == s[i + 1..];
      FirstFenceIsFirst(s[1..], h, i - 1);
    }
  }

  lemma {:induction false} RawTextIsBlank(s: string, h: nat)
    ensures var r := FirstFence(s, h);
            Mask(s, CODE.(raw := Some(h))) ==
            if r.Some? then Blank(r.value + 1 + h, Mask(s[r.value + 1 + h..], CODE))
            else Masked(Spaces(|s|), CODE.(raw := Some(h)))
    decreases |s|
  {
    hide Mask, Hashes, Blank, Spaces;
    if s == "" {
      MaskNothing(CODE.(raw := Some(h)));
    } else if s[0] == '"' && Hashes(s[1..]) == h {
      RawEnds(s, h);
    } else {
      RawGoesOn(s, h);
      RawTextIsBlank(s[1..], h);
      var r := FirstFence(s[1..], h);
      if r.Some? {
        assert s[1..][r.value + 1 + h..] == s[r.value + 2 + h..];
        BlankBlank(1, r.value + 1 + h, Mask(s[r.value + 2 + h..], CODE));
      } else {
        BlankSpaces(1, |s| - 1, CODE.(raw := Some(h)));
      }
    }
  }

  lemma RawEnds(s: string, h: nat)
    requires s != "" && s[0] == '"' && Hashes(s[1..]) == h
    ensures 1 + h <= |s| && Mask(s, CODE.(raw := Some(h))) == Blank(1 + h, Mask(s[1 + h..], CODE))
  {
    hide Mask;
    MaskRound(s, CODE.(raw := Some(h)), 1 + h, CODE);
  }

  /** The place behind the bracket that closes a comment of depth `d`; brackets nest. */
  function CommentEnd(s: string, d: nat): (r: Option<nat>)
    ensures r.Some? ==> r.value <= |s|
    decreases |s|
  {
    if d == 0 then Some(0)
    else if s == "" then None
    else if Starts(s, '/', '*') then Shift(2, CommentEnd(s[2..], d + 1))
    else if Starts(s, '*', '/') then Shift(2, CommentEnd(s[2..], d - 1))
    else Shift(1, CommentEnd(s[1..], d))
  }

  /** The depth at the end of a line that does not close the comment. */
  function DepthAfter(s: string, d: nat): nat
    decreases |s|
  {
    if d == 0 || s == "" then d
    else if Starts(s, '/', '*') then DepthAfter(s[2..], d + 1)
    else if Starts(s, '*', '/') then DepthAfter(s[2..], d - 1)
    else DepthAfter(s[1..], d)
  }

  lemma CommentRound(s: string, d: nat, w: nat, e: nat)
    requires s != "" && d > 0
    requires w == if Starts(s, '/', '*') || Starts(s, '*', '/') then 2 else 1
    requires e == if Starts(s, '/', '*') then d + 1 else if Starts(s, '*', '/') then d - 1 else d
    ensures Mask(s, CODE.(depth := d)) == Blank(w, Mask(s[w..], CODE.(depth := e)))
    ensures CommentEnd(s, d) == Shift(w, CommentEnd(s[w..], e)) && DepthAfter(s, d) == DepthAfter(s[w..], e)
  {
    hide Mask;
    MaskRound(s, CODE.(depth := d), w, CODE.(depth := e));
  }

  lemma {:induction false} CommentLineIsBlank(s: string, d: nat)
    ensures var r := CommentEnd(s, d);
            if r.Some? then Mask(s, CODE.(depth := d)) == Blank(r.value, Mask(s[r.value..], CODE))
            else DepthAfter(s, d) > 0 && Mask(s, CODE.(depth := d)) == Masked(Spaces(|s|), CODE.(depth := DepthAfter(s, d)))
    decreases |s|
  {
    hide Mask;
    if d == 0 {
      assert s[0..] == s && Spaces(0) + Mask(s, CODE).code == Mask(s, CODE).code;
    } else if s == "" {
      MaskNothing(CODE.(depth := d));
    } else {
      var w := if Starts(s, '/', '*') || Starts(s, '*', '/') then 2 else 1;
      var e := if Starts(s, '/', '*') then d + 1 else if Starts(s, '*', '/') then d - 1 else d;
      CommentRound(s, d, w, e);
      hide CommentEnd, DepthAfter, Starts, Blank, Spaces;
      CommentLineIsBlank(s[w..], e);
      var r := CommentEnd(s[w..], e);
      if r.Some? {
        assert s[w..][r.value..] == s[w + r.value..];
        BlankBlank(w, r.value, Mask(s[w + r.value..], CODE));
      } else {
        BlankSpaces(w, |s| - w, CODE.(depth := DepthAfter(s, d)));
      }
    }
  }

  // ---------- literals and comments from their start ----------

  /** `w` blanks, and then text that is blank up to place `r` or to the end of the line. */
  lemma OpenedText(whole: Masked, w: nat, inner: Masked, r: Option<nat>, rest: Masked, n: nat, st: Lexer)
    requires whole == Blank(w, inner) && inner == if r.Some? then Blank(r.value, rest) else Masked(Spaces(n), st)
    ensures whole == if r.Some? then Blank(w + r.value, rest) else Masked(Spaces(w + n), st)
  {
    hide Blank, Spaces;
    if r.Some? {
      BlankBlank(w, r.value, rest);
    } else {
      BlankSpaces(w, n, st);
    }
  }

  lemma QuoteOpens(s: string, quote: char)
    requires quote == '"' || quote == '\''
    ensures Mask([quote] + s, CODE) == Blank(1, Mask(s, Quoted(quote, false)))
  {
    hide Mask;
    assert ([quote] + s)[1..] == s;
    MaskRound([quote] + s, CODE, 1, Quoted(quote, false));
  }

  /** The masked rest of a line behind place `r`. */
  function Behind(s: string, r: Option<nat>): Masked
    requires r.Some? ==> r.value <= |s|
  {
    if r.Some? then Mask(s[r.value..], CODE) else Masked("", CODE)
  }

  /** A string or character literal in code is blanked to its first bare quote, behind which code goes on,
      or to the end of the line, and then the next line starts inside. */
  lemma QuotedLiteralIsBlank(s: string, quote: char)
    requires quote == '"' || quote == '\''
    ensures var r := Shift(1, FirstBare(s, quote, false));
            Mask([quote] + s, CODE) ==
            if r.Some? then Blank(1 + r.value, Behind(s, r))
            else Masked(Spaces(1 + |s|), Quoted(quote, EscapedAt(s, |s|, false)))
  {
    hide Mask, Blank, Spaces, FirstBare, EscapedAt, Quoted;
    QuoteOpens(s, quote);
    QuotedTextIsBlank(s, quote, false);
    var r := Shift(1, FirstBare(s, quote, false));
    OpenedText(Mask([quote] + s, CODE), 1, Mask(s, Quoted(quote, false)), r, Behind(s, r),
               |s|, Quoted(quote, EscapedAt(s, |s|, false)));
  }

  /** A raw string likewise, to the first quote with exactly its number of hashes. */
  lemma RawStringIsBlank(s: string, h: nat)
    ensures var r := Resumes(s, CODE.(raw := Some(h)));
            Mask("r" + Fence(h) + "\"" + s, CODE) ==
            if r.Some? then Blank(h + 2 + r.value, Behind(s, r))
            else Masked(Spaces(h + 2 + |s|), CODE.(raw := Some(h)))
  {
    hide Mask, Blank, Spaces, FirstFence, Fence;
    RawOpens(h, s);
    RawTextIsBlank(s, h);
    var st := CODE.(raw := Some(h));
    var r := Resumes(s, st);
    OpenedText(Mask("r" + Fence(h) + "\"" + s, CODE), h + 2, Mask(s, st), r, Behind(s, r), |s|, st);
  }

  lemma CommentOpens(s: string)
    ensures Mask("/*" + s, CODE) == Blank(2, Mask(s, CODE.(depth := 1)))
  {
    hide Mask, Blank;
    CommentBracketsNest(s, 0);
  }

  /** And a comment, to the bracket that matches its own. */
  lemma CommentIsBlank(s: string)
    ensures var r := CommentEnd(s, 1);
            Mask("/*" + s, CODE) ==
            if r.Some? then Blank(2 + r.value, Behind(s, r))
            else Masked(Spaces(2 + |s|), CODE.(depth := DepthAfter(s, 1)))
  {
    hide Mask, Blank, Spaces, CommentEnd, DepthAfter;
    CommentOpens(s);
    CommentLineIsBlank(s, 1);
    var r := CommentEnd(s, 1);
    OpenedText(Mask("/*" + s, CODE), 2, Mask(s, CODE.(depth := 1)), r, Behind(s, r),
               |s|, CODE.(depth := DepthAfter(s, 1)));
  }

  // ---------- whatever a line starts inside of ----------

  /** Code, or inside one comment or literal. */
  predicate OneMode(st: Lexer) {
    || st == CODE.(depth := st.depth)
    || (st.raw.Some? && st == CODE.(raw := st.raw))
    || (st.inString && st == Quoted('"', st.stringEscape))
    || (st.inChar && st == Quoted('\'', st.charEscape))
  }

  /** Where on the line code goes on, if it does: at once in code, else behind what is open. */
  function Resumes(s: string, st: Lexer): (r: Option<nat>)
    ensures r.Some? ==> r.value <= |s|
  {
    if st.depth > 0 then CommentEnd(s, st.depth)
    else if st.raw.Some? then
      var r := FirstFence(s, st.raw.value);
      if r.None? then None else Some(r.value + 1 + st.raw.value)
    else if st.inString then Shift(1, FirstBare(s, '"', st.stringEscape))
    else if st.inChar then Shift(1, FirstBare(s, '\'', st.charEscape))
    else Some(0)
  }

  /** Whatever a line starts inside of is blank up to where code goes on; if it does not, the whole line is
      blank and the next one starts inside too. */
  lemma OpenTextIsBlank(s: string, st: Lexer)
    requires OneMode(st)
    ensures var r := Resumes(s, st);
            if r.Some? then Mask(s, st) == Blank(r.value, Mask(s[r.value..], CODE))
            else Mask(s, st).code == Spaces(|s|) && Mask(s, st).state != CODE && OneMode(Mask(s, st).state)
  {
    hide Mask, FirstBare, FirstFence, CommentEnd, DepthAfter;
    if st.raw.Some? {
      RawTextIsBlank(s, st.raw.value);
    } else if st.inString {
      QuotedTextIsBlank(s, '"', st.stringEscape);
    } else if st.inChar {
      QuotedTextIsBlank(s, '\'', st.charEscape);
    } else {
      CommentLineIsBlank(s, st.depth);
      if st.depth == 0 {
        NoComment(s);
      }
    }
  }

  lemma NoComment(s: string)
    ensures CommentEnd(s, 0) == Some(0) && s[0..] == s
  {
  }

  lemma {:induction false} CodeStaysInOneMode(s: string)
    ensures OneMode(Mask(s, CODE).state)
    decreases |s|, 0
  {
    if s != "" {
      hide Mask;
      var r := OneRound(s, CODE);
      MaskState(s, CODE);
      assert OneMode(r.next);
      hide OneRound, OneMode;
      MaskStaysInOneMode(s[r.width..], r.next);
    }
  }

  lemma MaskState(s: string, st: Lexer)
    requires s != ""
    ensures var r := OneRound(s, st); Mask(s, st).state == Mask(s[r.width..], r.next).state
  {
  }

  lemma {:induction false} MaskStaysInOneMode(s: string, st: Lexer)
    requires OneMode(st)
    ensures OneMode(Mask(s, st).state)
    decreases |s|, 1
  {
    hide Mask, OneMode;
    OpenTextIsBlank(s, st);
    var r := Resumes(s, st);
    if r.Some? {
      hide Resumes;
      CodeStaysInOneMode(s[r.value..]);
    }
  }

  // ---------- test contexts ----------

  /** What the regular expressions and `str.strip` decide: whether a stripped line starts with a test
      attribute, whether a line starts an item and if so whether that is a module named `tests`. */
  datatype Patterns = Patterns(isSpace: char -> bool, isTestAttribute: string -> bool, item: string -> Option<bool>)

  function Strip(p: Patterns, s: string): string {
    TrimBy(p.isSpace, s)
  }

  /** The open blocks, innermost last, and what the next opening brace will belong to. */
  datatype Tracker = Tracker(stack: seq<bool>, pendingAttribute: bool, pendingBlock: Option<bool>)

  const TOP_LEVEL := Tracker([], false, None)

  function Top(stack: seq<bool>): bool {
    stack != [] && stack[|stack| - 1]
  }

  function Brace(t: Tracker, ch: char): Tracker {
    if ch == '{' then
      t.(stack := t.stack + [if t.pendingBlock.Some? then t.pendingBlock.value else Top(t.stack)], pendingBlock := None)
    else if ch == '}' && t.stack != [] then t.(stack := t.stack[..|t.stack| - 1])
    else t
  }

  function Braces(t: Tracker, code: string): Tracker
    decreases |code|
  {
    if code == "" then t else Brace(Braces(t, code[..|code| - 1]), code[|code| - 1])
  }

  /** Attributes and items of a line, before its braces. */
  function Announce(p: Patterns, t: Tracker, code: string): Tracker {
    var stripped := Strip(p, code);
    var attribute := t.pendingAttribute || p.isTestAttribute(stripped);
    var item := p.item(code);
    if item.Some? then Tracker(t.stack, false, Some(attribute || item.value || Top(t.stack)))
    else if stripped != "" && !("#[" <= stripped) then t.(pendingAttribute := false)
    else t.(pendingAttribute := attribute)
  }

  function IsTestLine(p: Patterns, t: Tracker, code: string): bool {
    Top(t.stack) || Announce(p, t, code).pendingBlock == Some(true)
  }

  function OnLine(p: Patterns, t: Tracker, code: string): Tracker {
    var u := Braces(Announce(p, t, code), code);
    var stripped := Strip(p, code);
    if stripped != "" && stripped[|stripped| - 1] == ';' then u.(pendingBlock := None) else u
  }

  /** Lexer and tracker at the start of line `n`. */
  function LexerAt(lines: seq<string>, n: nat): Lexer
    requires n <= |lines|
  {
    if n == 0 then CODE else Mask(lines[n - 1], LexerAt(lines, n - 1)).state
  }

  function CodeOf(lines: seq<string>, n: nat): string
    requires n < |lines|
  {
    Mask(lines[n], LexerAt(lines, n)).code
  }

  function TrackerAt(p: Patterns, lines: seq<string>, n: nat): Tracker
    requires n <= |lines|
  {
    if n == 0 then TOP_LEVEL else OnLine(p, TrackerAt(p, lines, n - 1), CodeOf(lines, n - 1))
  }

  /** `line_test_contexts`. */
  method LineTestContexts(p: Patterns, lines: seq<string>) returns (contexts: seq<bool>)
    ensures |contexts| == |lines|
    ensures forall n :: 0 <= n < |lines| ==> contexts[n] == IsTestLine(p, TrackerAt(p, lines, n), CodeOf(lines, n))
  {
    hide Mask, OnLine, IsTestLine;
    contexts := [];
    var lexer := new LexerState();
    var t := TOP_LEVEL;
    for n := 0 to |lines|
      invariant lexer.st == LexerAt(lines, n) && t == TrackerAt(p, lines, n) && |contexts| == n
      invariant fresh(lexer)
      invariant forall k :: 0 <= k < n ==> contexts[k] == IsTestLine(p, TrackerAt(p, lines, k), CodeOf(lines, k))
    {
      hide LexerAt, TrackerAt, CodeOf;
      var code := lexer.SanitizeLine(lines[n]);
      LineStep(p, lines, n);
      var isTest;
      isTest, t := TrackLine(p, t, code);
      contexts := contexts + [isTest];
    }
  }

  lemma LineStep(p: Patterns, lines: seq<string>, n: nat)
    requires n < |lines|
    ensures Masked(CodeOf(lines, n), LexerAt(lines, n + 1)) == Mask(lines[n], LexerAt(lines, n))
    ensures TrackerAt(p, lines, n + 1) == OnLine(p, TrackerAt(p, lines, n), CodeOf(lines, n))
  {
  }

  method TrackLine(p: Patterns, t: Tracker, code: string) returns (isTest: bool, u: Tracker)
    ensures isTest == IsTestLine(p, t, code) && u == OnLine(p, t, code)
  {
    var stripped := Strip(p, code);
    var current := if t.stack != [] then t.stack[|t.stack| - 1] else false;
    var attribute, pending := t.pendingAttribute, t.pendingBlock;
    if p.isTestAttribute(stripped) {
      attribute := true;
    }
    var item := p.item(code);
    if item.Some? {
      pending := Some(attribute || item.value || current);
      attribute := false;
    } else if stripped != "" && !("#[" <= stripped) && attribute {
      attribute := false;
    }
    isTest := current || pending == Some(true);
    u := Tracker(t.stack, attribute, pending);
    assert u == Announce(p, t, code);
    u := TrackBraces(u, code);
    if stripped != "" && stripped[|stripped| - 1] == ';' {
      u := u.(pendingBlock := None);
    }
  }

  method TrackBraces(t: Tracker, code: string) returns (u: Tracker)
    ensures u == Braces(t, code)
  {
    u := t;
    for i := 0 to |code|
      invariant u == Braces(t, code[..i])
    {
      assert code[..i + 1][..i] == code[..i];
      if code[i] == '{' {
        if u.pendingBlock.Some? {
          u := u.(stack := u.stack + [u.pendingBlock.value], pendingBlock := None);
        } else {
          u := u.(stack := u.stack + [if u.stack != [] then u.stack[|u.stack| - 1] else false]);
        }
      } else if code[i] == '}' && u.stack != [] {
        u := u.(stack := u.stack[..|u.stack| - 1]);
      }
    }
    assert code[..|code|] == code;
  }

  /** Production blocks outside, test blocks inside. */
  ghost predicate Layered(stack: seq<bool>) {
    forall i, j :: 0 <= i < j < |stack| && stack[i] ==> stack[j]
  }

  ghost predicate Good(t: Tracker) {
    Layered(t.stack) && (t.pendingBlock == Some(false) ==> !Top(t.stack))
  }

  lemma {:induction false} BracesStayGood(t: Tracker, code: string)
    requires Good(t)
    ensures Good(Braces(t, code))
    decreases |code|
  {
    if code != "" {
      var n := |code| - 1;
      BracesStayGood(t, code[..n]);
      BraceStaysGood(Braces(t, code[..n]), code[n]);
    }
  }

  lemma BraceStaysGood(t: Tracker, ch: char)
    requires Good(t)
    ensures Good(Brace(t, ch))
  {
    var n := |t.stack| - 1;
    if ch == '}' && n > 0 {
      assert t.stack[n - 1] ==> t.stack[n];
    }
  }

  /** The block stack is layered before every line, whatever the patterns say. */
  lemma {:induction false} StackIsLayered(p: Patterns, lines: seq<string>, n: nat)
    requires n <= |lines|
    ensures Good(TrackerAt(p, lines, n))
  {
    if n > 0 {
      StackIsLayered(p, lines, n - 1);
      var t, code := TrackerAt(p, lines, n - 1), CodeOf(lines, n - 1);
      assert Good(Announce(p, t, code));
      BracesStayGood(Announce(p, t, code), code);
    }
  }

  /** A line that starts while any test block is open is marked as test, however deep the blocks inside
      it go; other lines are marked only by a test item announced before its brace. */
  lemma LinesInTestBlocksAreTests(p: Patterns, lines: seq<string>, n: nat)
    requires n < |lines|
    ensures var t := TrackerAt(p, lines, n);
            IsTestLine(p, t, CodeOf(lines, n)) <==>
            true in t.stack || Announce(p, t, CodeOf(lines, n)).pendingBlock == Some(true)
  {
    StackIsLayered(p, lines, n);
    var t := TrackerAt(p, lines, n);
    if true in t.stack {
      var i :| 0 <= i < |t.stack| && t.stack[i];
      assert i == |t.stack| - 1 || t.stack[|t.stack| - 1];
    }
  }

  /** Blank characters and every other character but braces leave the stack alone. */
  lemma {:induction false} OnlyBracesMove(t: Tracker, code: string)
    requires '{' !in code && '}' !in code
    ensures Braces(t, code) == t
    decreases |code|
  {
    if code != "" {
      OnlyBracesMove(t, code[..|code| - 1]);
    }
  }

  lemma {:induction false} BracesAppend(t: Tracker, a: string, b: string)
    ensures Braces(t, a + b) == Braces(Braces(t, a), b)
    decreases |b|
  {
    if b == "" {
      assert a + b == a;
    } else {
      var n := |b| - 1;
      assert (a + b)[..|a| + n] == a + b[..n];
      BracesAppend(t, a, b[..n]);
    }
  }

  /** Every line starts in code or inside one comment or literal. */
  lemma {:induction false} LinesStartInOneMode(lines: seq<string>, n: nat)
    requires n <= |lines|
    ensures OneMode(LexerAt(lines, n))
  {
    hide Mask, OneMode;
    if n == 0 {
      CodeIsOneMode();
    } else {
      LinesStartInOneMode(lines, n - 1);
      MaskStaysInOneMode(lines[n - 1], LexerAt(lines, n - 1));
    }
  }

  lemma CodeIsOneMode()
    ensures OneMode(CODE)
  {
  }

  /** What a line starts inside of moves nothing, whether it closes on the line or not. */
  lemma OpenTextMovesNothing(t: Tracker, s: string, st: Lexer)
    requires OneMode(st)
    ensures var r := Resumes(s, st);
            Braces(t, Mask(s, st).code) == if r.Some? then Braces(t, Mask(s[r.value..], CODE).code) else t
  {
    hide Mask, OneMode, Resumes, Braces;
    OpenTextIsBlank(s, st);
    var r := Resumes(s, st);
    if r.Some? {
      BlankMovesNothing(t, r.value, Mask(s[r.value..], CODE).code);
    } else {
      BlankMovesNothing(t, |s|, "");
      assert Spaces(|s|) + "" == Spaces(|s|);
      NothingMoves(t);
    }
  }

  lemma BlankMovesNothing(t: Tracker, n: nat, code: string)
    ensures Braces(t, Spaces(n) + code) == Braces(t, code)
  {
    BracesAppend(t, Spaces(n), code);
    OnlyBracesMove(t, Spaces(n));
  }

  lemma NothingMoves(t: Tracker)
    ensures Braces(t, "") == t
  {
  }

  lemma LiteralStarts(s: string)
    requires s != "" && !InCode(s, CODE).copies
    ensures var w, st := InCode(s, CODE).width, InCode(s, CODE).next;
            w <= |s| && OneMode(st) && Mask(s, CODE) == Blank(w, Mask(s[w..], st))
  {
    var w, st := InCode(s, CODE).width, InCode(s, CODE).next;
    assert OneRound(s, CODE) == Round(w, false, st);
    assert OneMode(st);
    hide InCode, OneMode;
    MaskRound(s, CODE, w, st);
  }

  /** A comment or literal that starts at a place in code moves nothing either: the stack goes on with the
      code behind it, or with the next line if it does not close on this one. */
  lemma LiteralMovesNothing(t: Tracker, s: string, w: nat, st: Lexer)
    requires s != "" && InCode(s, CODE) == Round(w, false, st)
    ensures w <= |s| && OneMode(st)
    ensures var r := Resumes(s[w..], st);
            Braces(t, Mask(s, CODE).code) == if r.Some? then Braces(t, Mask(s[w + r.value..], CODE).code) else t
  {
    LiteralStarts(s);
    hide Mask, InCode, OneMode, Resumes, Braces;
    BlankMovesNothing(t, w, Mask(s[w..], st).code);
    OpenTextMovesNothing(t, s[w..], st);
    var r := Resumes(s[w..], st);
    if r.Some? {
      assert s[w..][r.value..] == s[w + r.value..];
    }
  }

  /** And a plain character in code moves it by itself. So the stack follows exactly the braces in code. */
  lemma PlainCharacterMoves(t: Tracker, s: string)
    requires s != "" && InCode(s, CODE).copies
    ensures Braces(t, Mask(s, CODE).code) == Braces(Brace(t, s[0]), Mask(s[1..], CODE).code)
  {
    var rest := Mask(s[1..], CODE).code;
    assert InCode(s, CODE) == Round(1, true, CODE) && OneRound(s, CODE) == InCode(s, CODE);
    assert Mask(s, CODE).code == [s[0]] + rest;
    BracesAppend(t, [s[0]], rest);
    assert [s[0]][..0] == "";
  }

  /** Over the lines of a file: the stack after a line is that of the code on it, which begins where the
      text open at its start ends; lines inside of one literal or comment leave the stack alone. */
  lemma LineMovesStackByItsCode(p: Patterns, lines: seq<string>, n: nat)
    requires n < |lines|
    ensures var t, r := TrackerAt(p, lines, n), Resumes(lines[n], LexerAt(lines, n));
            TrackerAt(p, lines, n + 1).stack ==
            if r.None? then t.stack
            else Braces(Announce(p, t, CodeOf(lines, n)), Mask(lines[n][r.value..], CODE).code).stack
  {
    hide Mask, OneMode, Resumes, Braces;
    LinesStartInOneMode(lines, n);
    OpenTextMovesNothing(Announce(p, TrackerAt(p, lines, n), CodeOf(lines, n)), lines[n], LexerAt(lines, n));
  }

  lemma OpenLineMovesNothing(p: Patterns, lines: seq<string>, n: nat)
    requires n < |lines| && Resumes(lines[n], LexerAt(lines, n)).None?
    ensures LexerAt(lines, n + 1) != CODE && CodeOf(lines, n) == Spaces(|lines[n]|)
    ensures TrackerAt(p, lines, n + 1).stack == TrackerAt(p, lines, n).stack
  {
    LinesStartInOneMode(lines, n);
    LineMovesStackByItsCode(p, lines, n);
    hide Mask, OneMode, Resumes, TrackerAt;
    OpenTextIsBlank(lines[n], LexerAt(lines, n));
  }

  /** A literal or comment that stays open over several lines: they are blank and leave the stack alone. */
  lemma {:induction false} OpenLinesMoveNothing(p: Patterns, lines: seq<string>, n: nat, m: nat)
    requires n <= m <= |lines|
    requires forall k :: n <= k < m ==> Resumes(lines[k], LexerAt(lines, k)).None?
    ensures TrackerAt(p, lines, m).stack == TrackerAt(p, lines, n).stack
    ensures forall k :: n <= k < m ==> CodeOf(lines, k) == Spaces(|lines[k]|) && LexerAt(lines, k + 1) != CODE
    decreases m
  {
    hide LexerAt, CodeOf, TrackerAt, Resumes;
    if n < m {
      OpenLinesMoveNothing(p, lines, n, m - 1);
      OpenLineMovesNothing(p, lines, m - 1);
    }
  }

  // ---------- apostrophes that are no literals ----------

  function Apostrophes(s: string): nat {
    if s == "" then 0 else (if s[0] == '\'' then 1 else 0) + Apostrophes(s[1..])
  }

  function InOrOut(open: bool): Lexer {
    if open then Quoted('\'', false) else CODE
  }

  lemma ApostropheRound(s: string, open: bool)
    requires s != "" && '"' !in s && '\\' !in s && '/' !in s
    ensures var r := OneRound(s, InOrOut(open));
            r.width == 1 && r.next == InOrOut(open != (s[0] == '\''))
  {
    assert s[0] in s;
    var h := Hashes(s[1..]);
    assert 1 + h < |s| ==> s[1 + h] in s;
    hide Hashes;
  }

  predicate OddApostrophes(s: string) {
    s != "" && (s[0] == '\'') != OddApostrophes(s[1..])
  }

  lemma {:induction false} OddMeansOdd(s: string)
    ensures OddApostrophes(s) <==> Apostrophes(s) % 2 == 1
  {
    if s != "" {
      OddMeansOdd(s[1..]);
    }
  }

  lemma {:induction false} ApostrophesPair(s: string, open: bool)
    requires '"' !in s && '\\' !in s && '/' !in s
    ensures Mask(s, InOrOut(open)).state == InOrOut(OddApostrophes(s) != open)
    decreases |s|
  {
    hide Mask, OneRound, InOrOut;
    if s == "" {
      MaskNothing(InOrOut(open));
    } else {
      assert forall c :: c in s[1..] ==> c in s;
      ApostropheRound(s, open);
      MaskState(s, InOrOut(open));
      ApostrophesPair(s[1..], open != (s[0] == '\''));
    }
  }

  /** A lifetime is taken for the start of a character literal, and the literal does not end with its line:
      on a line of code without quotes, backslashes and slashes, an odd number of apostrophes makes the
      next line start inside, and only an odd number does. */
  lemma OddApostrophesReachNextLine(lines: seq<string>, n: nat)
    requires n < |lines| && LexerAt(lines, n) == CODE
    requires '"' !in lines[n] && '\\' !in lines[n] && '/' !in lines[n]
    ensures LexerAt(lines, n + 1) != CODE <==> Apostrophes(lines[n]) % 2 == 1
    ensures Apostrophes(lines[n]) % 2 == 1 ==> LexerAt(lines, n + 1) == Quoted('\'', false)
  {
    hide Mask;
    OddMeansOdd(lines[n]);
    ApostrophesPair(lines[n], false);
  }

  /** Two lines of Rust whose only brace the tracker misses. */
  lemma LifetimeHidesBrace(p: Patterns)
    ensures var lines := ["<'a>", "{"];
            CodeOf(lines, 1) == " " && TrackerAt(p, lines, 2).stack == TrackerAt(p, lines, 1).stack
  {
    var lines := ["<'a>", "{"];
    OneApostrophe();
    LexerStartsInCode(lines);
    OddApostrophesReachNextLine(lines, 0);
    BraceIsNoQuote();
    hide LexerAt, CodeOf, TrackerAt, Resumes, Mask;
    OpenLineMovesNothing(p, lines, 1);
    assert Spaces(1) == " ";
  }

  lemma LexerStartsInCode(lines: seq<string>)
    ensures LexerAt(lines, 0) == CODE
  {
  }

  lemma BraceIsNoQuote()
    ensures Resumes("{", Quoted('\'', false)).None?
  {
    assert "{"[1..] == "";
    assert FirstBare("", '\'', EscapedAt("{", 1, false)).None?;
  }

  lemma OneApostrophe()
    ensures Apostrophes("<'a>") == 1 && '"' !in "<'a>" && '\\' !in "<'a>" && '/' !in "<'a>"
  {
    assert "<'a>"[1..] == "'a>" && "'a>"[1..] == "a>" && "a>"[1..] == ">" && ">"[1..] == "";
  }
}
