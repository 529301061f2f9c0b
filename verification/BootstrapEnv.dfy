/** The `.env` file written at bootstrap: quoting of values and the two upserts, as string functions.
    Which characters `trim` takes for blanks is a parameter. */
module BootstrapEnv {
  import opened Common
  import opened Text

  // ---------- quoting ----------

  /** The escape as the source computes it, in two passes. */
  function Escape(v: string): string {
    Replace(Replace(v, '\\', "\\\\"), '"', "\\\"")
  }

  /** The escape in one pass. */
  function EscapeOnce(v: string): string {
    if v == "" then ""
    else (if v[0] == '\\' then "\\\\" else if v[0] == '"' then "\\\"" else [v[0]]) + EscapeOnce(v[1..])
  }

  /** The second pass leaves the backslashes of the first alone: both passes are one. */
  lemma {:induction false} TwoPassesAreOne(v: string)
    ensures Escape(v) == EscapeOnce(v)
    decreases |v|
  {
    if v != "" {
      TwoPassesAreOne(v[1..]);
      var x := if v[0] == '\\' then "\\\\" else [v[0]];
      ReplaceAppend(x, Replace(v[1..], '\\', "\\\\"), '"', "\\\"");
      ReplaceShort(x);
    }
  }

  lemma ReplaceShort(x: string)
    requires |x| == 1 || x == "\\\\"
    ensures Replace(x, '"', "\\\"") == if x == "\"" then "\\\"" else x
  {
    assert x[1..] == "" || (x[1..] == "\\" && x[1..][1..] == "");
    assert [x[0]] + [] == [x[0]];
  }

  /** Reading a quoted value, its opening quote already read: a backslash takes the next character
      as it is, a bare quote ends the value. */
  function ReadQuoted(s: string): Option<(string, string)> {
    if s == "" then None
    else if s[0] == '"' then Some(("", s[1..]))
    else if s[0] == '\\' then
      if |s| == 1 then None
      else
        var r := ReadQuoted(s[2..]);
        if r.None? then None else Some(([s[1]] + r.value.0, r.value.1))
    else
      var r := ReadQuoted(s[1..]);
      if r.None? then None else Some(([s[0]] + r.value.0, r.value.1))
  }

  /** An escape-aware reader gets every value back, and stops where it ends: no value can break out of
      its quotes. */
  lemma {:induction false} QuotedValueReadsBack(v: string, rest: string)
    ensures ReadQuoted(EscapeOnce(v) + "\"" + rest) == Some((v, rest))
    decreases |v|
  {
    var s := EscapeOnce(v) + "\"" + rest;
    if v == "" {
      assert s[1..] == rest;
    } else {
      QuotedValueReadsBack(v[1..], rest);
      var t := EscapeOnce(v[1..]) + "\"" + rest;
      assert v == [v[0]] + v[1..];
      if v[0] == '\\' || v[0] == '"' {
        assert s[0] == '\\' && s[1] == v[0] && s[2..] == t;
      } else {
        assert s[0] == v[0] && s[1..] == t;
      }
    }
  }

  function NewLine(key: string, value: string): string {
    key + "=\"" + Escape(value) + "\""
  }

  // ---------- lines ----------

  function Find(s: string, c: char): (r: Option<nat>)
    ensures r.Some? ==> r.value < |s| && s[r.value] == c && c !in s[..r.value]
    ensures r.None? ==> c !in s
  {
    if s == "" then None
    else if s[0] == c then Some(0)
    else
      var r := Find(s[1..], c);
      if r.None? then None else
        assert s[..r.value + 1] == [s[0]] + s[1..][..r.value];
        Some(r.value + 1)
  }

  predicate EndsInCr(l: string) {
    l != "" && l[|l| - 1] == '\r'
  }

  /** A line without its trailing carriage return. */
  function Chomp(l: string): string {
    if EndsInCr(l) then l[..|l| - 1] else l
  }

  /** `str::lines`: a newline, or a carriage return and a newline, ends a line; the last line may lack
      its ending and then keeps a carriage return. */
  function Lines(s: string): seq<string>
    decreases |s|
  {
    if s == "" then []
    else
      match Find(s, '\n')
      case None => [s]
      case Some(i) => [Chomp(s[..i])] + Lines(s[i + 1..])
  }

  function Render(ls: seq<string>): string
    decreases |ls|
  {
    if ls == [] then "" else Render(ls[..|ls| - 1]) + ls[|ls| - 1] + "\n"
  }

  predicate OneLine(l: string) {
    '\n' !in l
  }

  lemma {:induction false} LinesAreLines(s: string)
    ensures forall i :: 0 <= i < |Lines(s)| ==> OneLine(Lines(s)[i])
    decreases |s|
  {
    if s != "" && Find(s, '\n').Some? {
      LinesAreLines(s[Find(s, '\n').value + 1..]);
    }
  }

  function Chomped(ls: seq<string>): seq<string> {
    seq(|ls|, i requires 0 <= i < |ls| => Chomp(ls[i]))
  }

  lemma {:induction false} FindFirst(l: string, c: char, rest: string)
    requires c !in l
    ensures Find(l + [c] + rest, c) == Some(|l|)
    decreases |l|
  {
    var s := l + [c] + rest;
    if l != "" {
      assert s[1..] == l[1..] + [c] + rest && s[0] == l[0] && l[0] in l;
      FindFirst(l[1..], c, rest);
    }
  }

  /** A line up to its newline loses a carriage return before it. */
  lemma FirstLine(l: string, rest: string)
    requires OneLine(l)
    ensures Lines(l + "\n" + rest) == [Chomp(l)] + Lines(rest)
  {
    var s := l + "\n" + rest;
    FindFirst(l, '\n', rest);
    assert s == l + ['\n'] + rest;
    assert s[..|l|] == l && s[|l| + 1..] == rest;
  }

  /** A last line without an ending is a line as it is. */
  lemma LastLine(l: string)
    requires OneLine(l) && l != ""
    ensures Lines(l) == [l]
  {
  }

  function RenderFront(ls: seq<string>): string {
    if ls == [] then "" else ls[0] + "\n" + RenderFront(ls[1..])
  }

  lemma {:induction false} RenderIsFront(ls: seq<string>)
    ensures Render(ls) == RenderFront(ls)
    decreases |ls|
  {
    if ls != [] {
      var n := |ls| - 1;
      RenderIsFront(ls[..n]);
      if n == 0 {
        assert ls[..0] == [] && ls[1..] == [];
        assert "" + ls[0] + "\n" == ls[0] + "\n" + "";
      } else {
        RenderIsFront(ls[1..]);
        RenderIsFront(ls[1..n]);
        assert ls[..n][1..] == ls[1..n] && ls[1..][..n - 1] == ls[1..n] && ls[1..][n - 1] == ls[n];
        assert ls[0] + "\n" + RenderFront(ls[1..n]) + ls[n] + "\n" == ls[0] + "\n" + (RenderFront(ls[1..n]) + ls[n] + "\n");
      }
    }
  }

  lemma NoLines()
    ensures Lines("") == []
  {
  }

  /** Reading rendered lines again gives the lines, but for a trailing carriage return of each. */
  lemma {:induction false} LinesOfRendered(ls: seq<string>)
    requires forall i :: 0 <= i < |ls| ==> OneLine(ls[i])
    ensures Lines(Render(ls)) == Chomped(ls)
    decreases |ls|
  {
    hide Lines, Chomp, OneLine, Render;
    RenderIsFront(ls);
    if ls == [] {
      NoLines();
    } else {
      FirstLine(ls[0], RenderFront(ls[1..]));
      LinesOfRendered(ls[1..]);
      RenderIsFront(ls[1..]);
      assert Chomped(ls) == [Chomp(ls[0])] + Chomped(ls[1..]);
    }
  }

  lemma {:induction false} RenderAppend(a: seq<string>, b: seq<string>)
    ensures Render(a + b) == Render(a) + Render(b)
    decreases |b|
  {
    if b == [] {
      assert a + b == a;
    } else {
      var n := |b| - 1;
      var all := a + b;
      assert all[..|all| - 1] == a + b[..n] && all[|all| - 1] == b[n];
      RenderAppend(a, b[..n]);
      assert Render(a) + Render(b[..n]) + b[n] + "\n" == Render(a) + (Render(b[..n]) + b[n] + "\n");
    }
  }

  // ---------- batch upsert ----------

  /** The key of a line, if it has an equals sign. */
  function KeyOf(blank: char -> bool, l: string): Option<string> {
    match Find(l, '=')
    case None => None
    case Some(i) => Some(TrimBy(blank, l[..i]))
  }

  predicate Overwritten(blank: char -> bool, keys: set<string>, l: string) {
    var k := KeyOf(blank, l);
    k.Some? && k.value in keys
  }

  function Keys(vars: seq<(string, string)>): (r: set<string>)
    ensures forall k :: k in r <==> exists i :: 0 <= i < |vars| && vars[i].0 == k
  {
    set i | 0 <= i < |vars| :: vars[i].0
  }

  function Kept(blank: char -> bool, keys: set<string>, ls: seq<string>): seq<string>
    decreases |ls|
  {
    if ls == [] then []
    else
      var r := Kept(blank, keys, ls[..|ls| - 1]);
      if Overwritten(blank, keys, ls[|ls| - 1]) then r else r + [ls[|ls| - 1]]
  }

  function NewLines(vars: seq<(string, string)>): (r: seq<string>)
    ensures |r| == |vars| && forall i :: 0 <= i < |r| ==> r[i] == NewLine(vars[i].0, vars[i].1)
  {
    seq(|vars|, i requires 0 <= i < |vars| => NewLine(vars[i].0, vars[i].1))
  }

  function Upserted(blank: char -> bool, existing: string, vars: seq<(string, string)>): string {
    Render(Kept(blank, Keys(vars), Lines(existing)) + NewLines(vars))
  }

  /** `upsert_bootstrap_vars_to`: copy the lines of other keys, append the new ones. */
  method UpsertVars(blank: char -> bool, existing: string, vars: seq<(string, string)>) returns (result: string)
    ensures result == Upserted(blank, existing, vars)
  {
    var keys := Keys(vars);
    var ls := Lines(existing);
    result := "";
    for i := 0 to |ls|
      invariant result == Render(Kept(blank, keys, ls[..i]))
    {
      assert ls[..i + 1][..i] == ls[..i];
      var eq := Find(ls[i], '=');
      var overwritten := eq.Some? && TrimBy(blank, ls[i][..eq.value]) in keys;
      if !overwritten {
        RenderSnoc(Kept(blank, keys, ls[..i]), ls[i]);
        result := result + ls[i] + "\n";
      }
    }
    assert ls[..|ls|] == ls;
    result := AppendVars(result, Kept(blank, keys, ls), vars);
  }

  lemma RenderSnoc(ls: seq<string>, l: string)
    ensures Render(ls + [l]) == Render(ls) + l + "\n"
  {
    assert (ls + [l])[..|ls|] == ls;
  }

  /** Its second loop, which is also all of `save_bootstrap_env_to`. */
  method AppendVars(before: string, ghost ls: seq<string>, vars: seq<(string, string)>) returns (result: string)
    requires before == Render(ls)
    ensures result == Render(ls + NewLines(vars))
  {
    hide Render, Escape;
    result := before;
    assert ls + NewLines(vars[..0]) == ls;
    for i := 0 to |vars|
      invariant result == Render(ls + NewLines(vars[..i]))
    {
      var l := vars[i].0 + "=\"" + Escape(vars[i].1) + "\"";
      assert ls + NewLines(vars[..i + 1]) == ls + NewLines(vars[..i]) + [l];
      RenderSnoc(ls + NewLines(vars[..i]), l);
      result := result + l + "\n";
    }
    assert vars[..|vars|] == vars;
  }

  /** What a caller must pass: keys without equals sign, line break or surrounding blanks, and values
      without line break. */
  ghost predicate Clean(blank: char -> bool, vars: seq<(string, string)>) {
    forall i :: 0 <= i < |vars| ==>
      '=' !in vars[i].0 && '\n' !in vars[i].0 && TrimBy(blank, vars[i].0) == vars[i].0 && '\n' !in vars[i].1
  }

  lemma {:induction false} EscapeAddsNoBreak(v: string)
    requires '\n' !in v
    ensures '\n' !in EscapeOnce(v)
    decreases |v|
  {
    if v != "" {
      assert forall c :: c in v[1..] ==> c in v;
      EscapeAddsNoBreak(v[1..]);
      assert v[0] in v;
    }
  }

  lemma NewLineIsOneLine(k: string, v: string)
    requires '\n' !in k && '\n' !in v
    ensures OneLine(NewLine(k, v)) && Chomp(NewLine(k, v)) == NewLine(k, v)
  {
    hide Escape, EscapeOnce;
    TwoPassesAreOne(v);
    EscapeAddsNoBreak(v);
    var l := NewLine(k, v);
    assert l[|l| - 1] == '"';
  }

  /** A new line has its own key, is one line and does not end in a carriage return. */
  lemma NewLineIsClean(blank: char -> bool, k: string, v: string)
    requires '=' !in k && '\n' !in k && TrimBy(blank, k) == k && '\n' !in v
    ensures OneLine(NewLine(k, v)) && Chomp(NewLine(k, v)) == NewLine(k, v)
    ensures KeyOf(blank, NewLine(k, v)) == Some(k)
  {
    hide Escape, TrimBy, Chomp, OneLine, Find;
    NewLineIsOneLine(k, v);
    var l := NewLine(k, v);
    var tail := "\"" + Escape(v) + "\"";
    assert l == k + ['='] + tail;
    FindFirst(k, '=', tail);
    assert l[..|k|] == k;
  }

  lemma {:induction false} KeptAppend(blank: char -> bool, keys: set<string>, a: seq<string>, b: seq<string>)
    ensures Kept(blank, keys, a + b) == Kept(blank, keys, a) + Kept(blank, keys, b)
    decreases |b|
  {
    hide Overwritten;
    if b == [] {
      assert a + b == a;
    } else {
      var n := |b| - 1;
      var all := a + b;
      assert all[..|all| - 1] == a + b[..n] && all[|all| - 1] == b[n];
      KeptAppend(blank, keys, a, b[..n]);
    }
  }

  lemma {:induction false} KeptOfKept(blank: char -> bool, keys: set<string>, ls: seq<string>)
    ensures Kept(blank, keys, Kept(blank, keys, ls)) == Kept(blank, keys, ls)
    decreases |ls|
  {
    hide Overwritten;
    if ls != [] {
      var n := |ls| - 1;
      KeptOfKept(blank, keys, ls[..n]);
      var r := Kept(blank, keys, ls[..n]);
      assert (r + [ls[n]])[..|r|] == r;
    }
  }

  lemma {:induction false} NewLinesAreOverwritten(blank: char -> bool, keys: set<string>, ls: seq<string>)
    requires forall i :: 0 <= i < |ls| ==> Overwritten(blank, keys, ls[i])
    ensures Kept(blank, keys, ls) == []
    decreases |ls|
  {
    if ls != [] {
      NewLinesAreOverwritten(blank, keys, ls[..|ls| - 1]);
    }
  }

  lemma {:induction false} KeptAreLines(blank: char -> bool, keys: set<string>, ls: seq<string>)
    requires forall i :: 0 <= i < |ls| ==> OneLine(ls[i])
    ensures forall i :: 0 <= i < |Kept(blank, keys, ls)| ==> OneLine(Kept(blank, keys, ls)[i])
    decreases |ls|
  {
    hide Overwritten, OneLine;
    if ls != [] {
      KeptAreLines(blank, keys, ls[..|ls| - 1]);
    }
  }

  lemma NewLinesAreLines(blank: char -> bool, vars: seq<(string, string)>)
    requires Clean(blank, vars)
    ensures forall i :: 0 <= i < |vars| ==> OneLine(NewLines(vars)[i]) && Chomp(NewLines(vars)[i]) == NewLines(vars)[i]
  {
    hide OneLine, Chomp, NewLine, TrimBy;
    forall i | 0 <= i < |vars|
      ensures OneLine(NewLines(vars)[i]) && Chomp(NewLines(vars)[i]) == NewLines(vars)[i]
    {
      NewLineIsOneLine(vars[i].0, vars[i].1);
    }
  }

  /** The lines of the result: the other lines in order, then one line per pair. */
  lemma LinesOfUpserted(blank: char -> bool, existing: string, vars: seq<(string, string)>)
    requires Clean(blank, vars)
    ensures Lines(Upserted(blank, existing, vars)) == Chomped(Kept(blank, Keys(vars), Lines(existing))) + NewLines(vars)
  {
    hide Kept, Lines, Render, OneLine, Chomp, Clean, NewLine, Keys;
    var kept, more := Kept(blank, Keys(vars), Lines(existing)), NewLines(vars);
    LinesAreLines(existing);
    KeptAreLines(blank, Keys(vars), Lines(existing));
    NewLinesAreLines(blank, vars);
    LinesOfRendered(kept + more);
    assert Chomped(kept + more) == Chomped(kept) + more;
  }

  ghost predicate Settled(ls: seq<string>) {
    forall i :: 0 <= i < |ls| ==> !EndsInCr(ls[i])
  }

  lemma NewLinesOverwritten(blank: char -> bool, vars: seq<(string, string)>)
    requires Clean(blank, vars)
    ensures Kept(blank, Keys(vars), NewLines(vars)) == []
  {
    forall i | 0 <= i < |vars|
      ensures Overwritten(blank, Keys(vars), NewLines(vars)[i])
    {
      NewLineIsClean(blank, vars[i].0, vars[i].1);
    }
    NewLinesAreOverwritten(blank, Keys(vars), NewLines(vars));
  }

  lemma {:induction false} RenderedLength(ls: seq<string>, ms: seq<string>)
    requires |ls| == |ms| && forall i :: 0 <= i < |ls| ==> |ls[i]| <= |ms[i]|
    ensures |Render(ls)| <= |Render(ms)|
    ensures (exists i :: 0 <= i < |ls| && |ls[i]| < |ms[i]|) ==> |Render(ls)| < |Render(ms)|
    decreases |ls|
  {
    if ls != [] {
      var n := |ls| - 1;
      RenderedLength(ls[..n], ms[..n]);
      if i :| 0 <= i < |ls| && |ls[i]| < |ms[i]| {
        if i < n {
          assert |ls[..n][i]| < |ms[..n][i]|;
        }
      }
    }
  }

  lemma {:induction false} KeptIsShorter(blank: char -> bool, keys: set<string>, ls: seq<string>)
    ensures |Render(Kept(blank, keys, ls))| <= |Render(ls)|
    decreases |ls|
  {
    hide Overwritten;
    if ls != [] {
      var n := |ls| - 1;
      KeptIsShorter(blank, keys, ls[..n]);
      RenderSnoc(Kept(blank, keys, ls[..n]), ls[n]);
    }
  }

  /** Upserting the same pairs again changes nothing exactly if no line kept from the old file ends in
      a carriage return: such a return is eaten, one at a time, by every further upsert. */
  lemma UpsertIsIdempotent(blank: char -> bool, existing: string, vars: seq<(string, string)>)
    requires Clean(blank, vars)
    ensures Upserted(blank, Upserted(blank, existing, vars), vars) == Upserted(blank, existing, vars) <==>
            Settled(Kept(blank, Keys(vars), Lines(existing)))
  {
    var keys := Keys(vars);
    var kept := Kept(blank, keys, Lines(existing));
    LinesOfUpserted(blank, existing, vars);
    KeptAppend(blank, keys, Chomped(kept), NewLines(vars));
    NewLinesOverwritten(blank, vars);
    KeptOfKept(blank, keys, Lines(existing));
    KeptIsShorter(blank, keys, Chomped(kept));
    RenderedLength(Chomped(kept), kept);
    RenderAppend(Kept(blank, keys, Chomped(kept)), NewLines(vars));
    RenderAppend(kept, NewLines(vars));
    hide Kept, Lines, Render, Keys;
    assert Kept(blank, keys, Chomped(kept)) + [] == Kept(blank, keys, Chomped(kept));
    if Settled(kept) {
      assert Chomped(kept) == kept;
    } else {
      var i :| 0 <= i < |kept| && EndsInCr(kept[i]);
      assert |Chomped(kept)[i]| < |kept[i]|;
    }
  }

  /** A file that two upserts of nothing bring to different contents: its last line has no newline and
      ends in a carriage return, which the first upsert keeps and the second eats. */
  lemma CarriageReturnIsEaten(blank: char -> bool)
    ensures Upserted(blank, "a\r", []) == "a\r\n" && Upserted(blank, "a\r\n", []) == "a\n"
  {
    FindFirst("a\r", '\n', "");
    assert "a\r" + ['\n'] + "" == "a\r\n" && "a\r\n"[..2] == "a\r" && "a\r\n"[3..] == "";
    assert "a\r"[..1] == "a";
    assert Lines("a\r") == ["a\r"];
    assert Lines("a\r\n") == ["a"] + [];
    OneLineKept(blank, "a\r");
    OneLineKept(blank, "a");
  }

  lemma OneLineKept(blank: char -> bool, l: string)
    requires Find(l, '=').None?
    ensures Render(Kept(blank, Keys([]), [l]) + NewLines([])) == l + "\n"
  {
    assert [l][..0] == [];
    assert Kept(blank, Keys([]), [l]) == [] + [l];
    assert [l] + NewLines([]) == [l];
    RenderSnoc([], l);
    assert [] + [l] == [l] && "" + l == l;
  }

  // ---------- the lines of one key ----------

  function WithKey(blank: char -> bool, ls: seq<string>, key: string): seq<string>
    decreases |ls|
  {
    if ls == [] then []
    else
      var r := WithKey(blank, ls[..|ls| - 1], key);
      if KeyOf(blank, ls[|ls| - 1]) == Some(key) then r + [ls[|ls| - 1]] else r
  }

  function PairsOf(vars: seq<(string, string)>, key: string): seq<(string, string)>
    decreases |vars|
  {
    if vars == [] then []
    else
      var r := PairsOf(vars[..|vars| - 1], key);
      if vars[|vars| - 1].0 == key then r + [vars[|vars| - 1]] else r
  }

  lemma {:induction false} WithKeyAppend(blank: char -> bool, a: seq<string>, b: seq<string>, key: string)
    ensures WithKey(blank, a + b, key) == WithKey(blank, a, key) + WithKey(blank, b, key)
    decreases |b|
  {
    hide KeyOf;
    if b == [] {
      assert a + b == a;
    } else {
      var n := |b| - 1;
      var all := a + b;
      assert all[..|all| - 1] == a + b[..n] && all[|all| - 1] == b[n];
      WithKeyAppend(blank, a, b[..n], key);
    }
  }

  /** A trailing carriage return is not part of a key. */
  lemma ChompKeepsKey(blank: char -> bool, l: string)
    ensures KeyOf(blank, Chomp(l)) == KeyOf(blank, l)
  {
    var c := Chomp(l);
    var i := Find(l, '=');
    if EndsInCr(l) && i.Some? {
      assert i.value < |c|;
      assert c == c[..i.value] + ['='] + c[i.value + 1..];
      assert c[..i.value] == l[..i.value];
      FindFirst(c[..i.value], '=', c[i.value + 1..]);
    } else if EndsInCr(l) {
      assert forall x :: x in c ==> x in l;
    }
  }

  lemma {:induction false} KeptHasNoKey(blank: char -> bool, keys: set<string>, ls: seq<string>, key: string)
    requires key in keys
    ensures WithKey(blank, Chomped(Kept(blank, keys, ls)), key) == []
    decreases |ls|
  {
    if ls != [] {
      var n := |ls| - 1;
      KeptHasNoKey(blank, keys, ls[..n], key);
      var r := Kept(blank, keys, ls[..n]);
      if !Overwritten(blank, keys, ls[n]) {
        assert Chomped(r + [ls[n]]) == Chomped(r) + [Chomp(ls[n])];
        assert (Chomped(r) + [Chomp(ls[n])])[..|r|] == Chomped(r);
        ChompKeepsKey(blank, ls[n]);
      }
    }
  }

  lemma {:induction false} NewLinesOfKey(blank: char -> bool, vars: seq<(string, string)>, key: string)
    requires Clean(blank, vars)
    ensures WithKey(blank, NewLines(vars), key) == NewLines(PairsOf(vars, key))
    decreases |vars|
  {
    if vars != [] {
      var n := |vars| - 1;
      NewLinesOfKey(blank, vars[..n], key);
      NewLineIsClean(blank, vars[n].0, vars[n].1);
      assert NewLines(vars)[..n] == NewLines(vars[..n]);
      var r := PairsOf(vars[..n], key);
      assert NewLines(r + [vars[n]]) == NewLines(r) + [NewLine(vars[n].0, vars[n].1)];
    }
  }

  /** After a batch upsert the lines of a given key are exactly those of its pairs, in order: one line
      if the key was given once. */
  lemma OneLinePerPair(blank: char -> bool, existing: string, vars: seq<(string, string)>, key: string)
    requires Clean(blank, vars) && key in Keys(vars)
    ensures WithKey(blank, Lines(Upserted(blank, existing, vars)), key) == NewLines(PairsOf(vars, key))
  {
    LinesOfUpserted(blank, existing, vars);
    WithKeyAppend(blank, Chomped(Kept(blank, Keys(vars), Lines(existing))), NewLines(vars), key);
    KeptHasNoKey(blank, Keys(vars), Lines(existing), key);
    NewLinesOfKey(blank, vars, key);
    var r := NewLines(PairsOf(vars, key));
    assert [] + r == r;
  }

  // ---------- the other lines ----------

  /** A line has the text before its first equals sign for its key, without the blanks around it. */
  lemma KeyOfLine(blank: char -> bool, a: string, key: string, b: string, rest: string)
    requires All(blank, a) && All(blank, b) && Trimmed(blank, key) && '=' !in a + key + b
    ensures KeyOf(blank, a + key + b + "=" + rest) == Some(key)
  {
    var l := a + key + b;
    FindFirst(l, '=', rest);
    assert l + "=" + rest == l + ['='] + rest && (l + "=" + rest)[..|l|] == l;
    TrimOf(blank, a, key, b);
  }

  lemma NoKey(blank: char -> bool, l: string)
    requires '=' !in l
    ensures KeyOf(blank, l).None?
  {
  }

  /** The line has none of the keys. */
  predicate Foreign(blank: char -> bool, keys: set<string>, l: string) {
    var k := KeyOf(blank, l);
    k.None? || k.value !in keys
  }

  lemma {:induction false} FilterChomped(q: string -> bool, ls: seq<string>)
    requires forall l :: q(Chomp(l)) == q(l)
    ensures Filter(q, Chomped(ls)) == Chomped(Filter(q, ls))
    decreases |ls|
  {
    if ls != [] {
      hide Chomp;
      var n := |ls| - 1;
      FilterChomped(q, ls[..n]);
      assert Chomped(ls)[..n] == Chomped(ls[..n]) && Chomped(ls)[n] == Chomp(ls[n]);
      var f := Filter(q, ls[..n]);
      assert Chomped(f + [ls[n]]) == Chomped(f) + [Chomp(ls[n])];
      assert Chomped(f + []) == Chomped(f) + [];
      assert q(Chomp(ls[n])) == q(ls[n]);
    }
  }

  lemma {:induction false} FilterKept(blank: char -> bool, keys: set<string>, q: string -> bool, ls: seq<string>)
    requires forall l :: q(l) ==> Foreign(blank, keys, l)
    ensures Filter(q, Kept(blank, keys, ls)) == Filter(q, ls)
    decreases |ls|
  {
    if ls != [] {
      var n := |ls| - 1;
      FilterKept(blank, keys, q, ls[..n]);
      hide KeyOf;
      assert q(ls[n]) ==> Foreign(blank, keys, ls[n]);
      var r := Kept(blank, keys, ls[..n]);
      if !Overwritten(blank, keys, ls[n]) {
        assert (r + [ls[n]])[..|r|] == r;
      }
    }
  }

  /** A batch upsert keeps all lines that have none of its keys, with their contents and in their order:
      whatever property picks such lines, and does not look at a trailing carriage return, it picks the same
      lines of the new file as of the old one. */
  lemma OtherLinesStay(blank: char -> bool, existing: string, vars: seq<(string, string)>, q: string -> bool)
    requires Clean(blank, vars)
    requires (forall l :: q(Chomp(l)) == q(l)) && forall l :: q(l) ==> Foreign(blank, Keys(vars), l)
    ensures Filter(q, Lines(Upserted(blank, existing, vars))) == Chomped(Filter(q, Lines(existing)))
  {
    var ls, keys := Lines(existing), Keys(vars);
    forall i | 0 <= i < |vars|
      ensures !q(NewLines(vars)[i])
    {
      NewLineIsClean(blank, vars[i].0, vars[i].1);
      assert !Foreign(blank, keys, NewLines(vars)[i]);
    }
    hide Lines, Upserted, Kept, Filter, Foreign, Keys, Clean, Chomp;
    LinesOfUpserted(blank, existing, vars);
    FilterAppend(q, Chomped(Kept(blank, keys, ls)), NewLines(vars));
    FilterNone(q, NewLines(vars));
    FilterChomped(q, Kept(blank, keys, ls));
    FilterKept(blank, keys, q, ls);
    var r := Chomped(Filter(q, ls));
    assert r + [] == r;
  }

  function IsForeign(blank: char -> bool, keys: set<string>): string -> bool {
    l => Foreign(blank, keys, l)
  }

  function HasKey(blank: char -> bool, key: string): string -> bool {
    l => KeyOf(blank, l) == Some(key)
  }

  function HasNoKey(blank: char -> bool): string -> bool {
    l => KeyOf(blank, l).None?
  }

  lemma ChompKeepsKeys(blank: char -> bool)
    ensures forall l :: KeyOf(blank, Chomp(l)) == KeyOf(blank, l)
  {
    forall l
      ensures KeyOf(blank, Chomp(l)) == KeyOf(blank, l)
    {
      ChompKeepsKey(blank, l);
    }
  }

  /** All lines without the given keys, together and in order; those of one other key; and those without
      an equals sign. */
  lemma OtherKeysStay(blank: char -> bool, existing: string, vars: seq<(string, string)>, key: string)
    requires Clean(blank, vars)
    ensures var others := IsForeign(blank, Keys(vars));
            Filter(others, Lines(Upserted(blank, existing, vars))) == Chomped(Filter(others, Lines(existing)))
    ensures key !in Keys(vars) ==>
              WithKey(blank, Lines(Upserted(blank, existing, vars)), key) == Chomped(WithKey(blank, Lines(existing), key))
    ensures Filter(HasNoKey(blank), Lines(Upserted(blank, existing, vars))) == Chomped(Filter(HasNoKey(blank), Lines(existing)))
  {
    hide Lines, Upserted, Kept, Filter, Keys, Clean, KeyOf, Chomp;
    ChompKeepsKeys(blank);
    OtherLinesStay(blank, existing, vars, IsForeign(blank, Keys(vars)));
    OtherLinesStay(blank, existing, vars, HasNoKey(blank));
    if key !in Keys(vars) {
      OtherLinesStay(blank, existing, vars, HasKey(blank, key));
      WithKeyIsFilter(blank, Lines(existing), key);
      WithKeyIsFilter(blank, Lines(Upserted(blank, existing, vars)), key);
    }
  }

  lemma {:induction false} WithKeyIsFilter(blank: char -> bool, ls: seq<string>, key: string)
    ensures WithKey(blank, ls, key) == Filter(HasKey(blank, key), ls)
    decreases |ls|
  {
    hide KeyOf;
    if ls != [] {
      WithKeyIsFilter(blank, ls[..|ls| - 1], key);
    }
  }

  /** A written line gives its pair back: the key before the first equals sign, the value to an
      escape-aware reader. */
  lemma PairReadsBack(blank: char -> bool, k: string, v: string)
    requires '=' !in k && '\n' !in k && TrimBy(blank, k) == k && '\n' !in v
    ensures KeyOf(blank, NewLine(k, v)) == Some(k)
    ensures NewLine(k, v)[..|k| + 2] == k + "=\"" && ReadQuoted(NewLine(k, v)[|k| + 2..]) == Some((v, ""))
  {
    hide KeyOf, TrimBy, ReadQuoted, Chomp, OneLine, Escape, EscapeOnce;
    NewLineIsClean(blank, k, v);
    TwoPassesAreOne(v);
    QuotedValueReadsBack(v, "");
    NewLineSplits(k, v);
    assert EscapeOnce(v) + "\"" + "" == EscapeOnce(v) + "\"";
  }

  lemma NewLineSplits(k: string, v: string)
    ensures |NewLine(k, v)| >= |k| + 2
    ensures NewLine(k, v)[..|k| + 2] == k + "=\"" && NewLine(k, v)[|k| + 2..] == Escape(v) + "\""
  {
    hide Escape;
    assert NewLine(k, v) == (k + "=\"") + (Escape(v) + "\"");
  }

  // ---------- upsert of a single variable ----------

  function Without(ls: seq<string>, prefix: string): seq<string>
    decreases |ls|
  {
    if ls == [] then []
    else
      var r := Without(ls[..|ls| - 1], prefix);
      if prefix <= ls[|ls| - 1] then r else r + [ls[|ls| - 1]]
  }

  function FirstWith(ls: seq<string>, prefix: string): (r: nat)
    ensures r <= |ls| && (r < |ls| ==> prefix <= ls[r]) && forall i :: 0 <= i < r ==> !(prefix <= ls[i])
  {
    if ls == [] then 0
    else if prefix <= ls[0] then 0
    else 1 + FirstWith(ls[1..], prefix)
  }

  /** The lines with `line` in the place of the first one that has the prefix, or at the end. */
  function PutLine(ls: seq<string>, prefix: string, line: string): seq<string> {
    var i := FirstWith(ls, prefix);
    ls[..i] + [line] + Without(ls[i..], prefix)
  }

  lemma {:induction false} FirstWithSnoc(ls: seq<string>, l: string, prefix: string)
    ensures FirstWith(ls + [l], prefix) ==
            if FirstWith(ls, prefix) < |ls| || prefix <= l then FirstWith(ls, prefix) else |ls| + 1
    decreases |ls|
  {
    if ls == [] {
      assert (ls + [l])[1..] == [];
    } else {
      assert (ls + [l])[1..] == ls[1..] + [l];
      FirstWithSnoc(ls[1..], l, prefix);
    }
  }

  lemma WithoutSnoc(ls: seq<string>, l: string, prefix: string)
    ensures Without(ls + [l], prefix) == Without(ls, prefix) + if prefix <= l then [] else [l]
  {
    assert (ls + [l])[..|ls|] == ls;
  }

  lemma NothingLeft(l: string, prefix: string)
    ensures Without([], prefix) == []
    ensures prefix <= l ==> Without([l], prefix) == []
  {
    WithoutSnoc([], l, prefix);
    assert [] + [l] == [l];
  }

  /** What has been copied after the lines `ls`: all of them, or those of the final result. */
  function Progress(ls: seq<string>, prefix: string, line: string): seq<string> {
    if FirstWith(ls, prefix) < |ls| then PutLine(ls, prefix, line) else ls
  }

  lemma ProgressSnoc(ls: seq<string>, l: string, prefix: string, line: string)
    ensures Progress(ls + [l], prefix, line) ==
            if !(prefix <= l) then Progress(ls, prefix, line) + [l]
            else if FirstWith(ls, prefix) < |ls| then Progress(ls, prefix, line)
            else ls + [line]
  {
    hide FirstWith, Without;
    var i := FirstWith(ls, prefix);
    FirstWithSnoc(ls, l, prefix);
    if i < |ls| {
      WithoutSnoc(ls[i..], l, prefix);
      assert (ls + [l])[i..] == ls[i..] + [l] && (ls + [l])[..i] == ls[..i];
    } else if prefix <= l {
      NothingLeft(l, prefix);
      assert (ls + [l])[i..] == [l] && (ls + [l])[..i] == ls && ls + [line] + [] == ls + [line];
    }
  }

  /** `upsert_bootstrap_var_to`. */
  method UpsertVar(existing: string, key: string, value: string) returns (result: string)
    ensures result == Render(PutLine(Lines(existing), key + "=", NewLine(key, value)))
  {
    hide Escape, Render, Lines, Without, FirstWith, Progress;
    var newLine := key + "=\"" + Escape(value) + "\"";
    var prefix := key + "=";
    var ls := Lines(existing);
    var found := false;
    NothingCopied(prefix, newLine);
    result := "";
    for i := 0 to |ls|
      invariant found == (FirstWith(ls[..i], prefix) < i)
      invariant result == Render(Progress(ls[..i], prefix, newLine))
    {
      assert ls[..i + 1] == ls[..i] + [ls[i]];
      FirstWithSnoc(ls[..i], ls[i], prefix);
      AllCopied(ls[..i], prefix, newLine);
      ProgressSnoc(ls[..i], ls[i], prefix, newLine);
      RenderSnoc(Progress(ls[..i], prefix, newLine), ls[i]);
      RenderSnoc(ls[..i], newLine);
      if prefix <= ls[i] {
        if !found {
          result := result + newLine + "\n";
          found := true;
        }
      } else {
        result := result + ls[i] + "\n";
      }
    }
    assert ls[..|ls|] == ls;
    AllCopied(ls, prefix, newLine);
    if !found {
      RenderSnoc(ls, newLine);
      result := result + newLine + "\n";
    }
  }

  lemma NothingCopied(prefix: string, line: string)
    ensures FirstWith([], prefix) == 0 && Render(Progress([], prefix, line)) == ""
  {
  }

  lemma AllCopied(ls: seq<string>, prefix: string, line: string)
    ensures Progress(ls, prefix, line) == if FirstWith(ls, prefix) < |ls| then PutLine(ls, prefix, line) else ls
    ensures FirstWith(ls, prefix) == |ls| ==> PutLine(ls, prefix, line) == ls + [line]
  {
    if FirstWith(ls, prefix) == |ls| {
      assert ls[..|ls|] == ls && ls[|ls|..] == [];
      assert ls + [line] + [] == ls + [line];
    }
  }

  lemma {:induction false} WithoutHasNone(ls: seq<string>, prefix: string, i: nat)
    requires i < |Without(ls, prefix)|
    ensures !(prefix <= Without(ls, prefix)[i]) && Without(ls, prefix)[i] in ls
    decreases |ls|
  {
    if i < |Without(ls[..|ls| - 1], prefix)| {
      WithoutHasNone(ls[..|ls| - 1], prefix, i);
    }
  }

  /** After a single upsert exactly one line starts with the key, it is the new one, and it stands where
      the first old one stood (or last, if there was none); every line before it is unchanged, but for
      a carriage return. */
  lemma ExactlyOneKeyLine(existing: string, key: string, value: string)
    requires '\n' !in key && '\n' !in value
    ensures var was := Lines(existing);
            var r := Lines(Render(PutLine(was, key + "=", NewLine(key, value))));
            var at := FirstWith(was, key + "=");
            && at < |r| && r[at] == NewLine(key, value)
            && r[..at] == Chomped(was[..at])
            && r[at + 1..] == Chomped(Without(was[at..], key + "="))
            && forall i :: 0 <= i < |r| ==> (key + "=" <= r[i] <==> i == at)
  {
    hide Lines, Render, Without, FirstWith, PutLine, Chomped, NewLine;
    var prefix, line := key + "=", NewLine(key, value);
    var was := Lines(existing);
    var at := FirstWith(was, prefix);
    NewLineIsOneLine(key, value);
    LinesAreLines(existing);
    KeyStarts(key, value);
    PutIsOneLiners(was, prefix, line);
    LinesOfRendered(PutLine(was, prefix, line));
    PutChomped(was, prefix, line);
  }

  lemma KeyStarts(key: string, value: string)
    ensures key + "=" <= NewLine(key, value)
  {
    hide Escape;
    NewLineSplits(key, value);
    assert NewLine(key, value)[..|key| + 2][..|key| + 1] == key + "=";
  }

  lemma WithoutFacts(ls: seq<string>, prefix: string)
    ensures forall i :: 0 <= i < |Without(ls, prefix)| ==>
              !(prefix <= Without(ls, prefix)[i]) && Without(ls, prefix)[i] in ls
  {
    forall i | 0 <= i < |Without(ls, prefix)|
      ensures !(prefix <= Without(ls, prefix)[i]) && Without(ls, prefix)[i] in ls
    {
      WithoutHasNone(ls, prefix, i);
    }
  }

  lemma PutIsOneLiners(was: seq<string>, prefix: string, line: string)
    requires OneLine(line) && forall i :: 0 <= i < |was| ==> OneLine(was[i])
    ensures forall i :: 0 <= i < |PutLine(was, prefix, line)| ==> OneLine(PutLine(was, prefix, line)[i])
  {
    hide Without, FirstWith, OneLine;
    WithoutFacts(was[FirstWith(was, prefix)..], prefix);
  }

  /** Chomping cannot make a line start with the prefix, nor can it remove the new one. */
  lemma PutChomped(was: seq<string>, prefix: string, line: string)
    requires Chomp(line) == line && prefix <= line
    ensures var r := Chomped(PutLine(was, prefix, line));
            var at := FirstWith(was, prefix);
            && at < |r| && r[at] == line
            && r[..at] == Chomped(was[..at])
            && r[at + 1..] == Chomped(Without(was[at..], prefix))
            && forall i :: 0 <= i < |r| ==> (prefix <= r[i] <==> i == at)
  {
    hide Without, FirstWith;
    var at := FirstWith(was, prefix);
    var rest := Without(was[at..], prefix);
    var put := PutLine(was, prefix, line);
    var r := Chomped(put);
    assert r[at] == line;
    assert r[..at] == Chomped(was[..at]);
    assert r[at + 1..] == Chomped(rest);
    WithoutFacts(was[at..], prefix);
    forall i | 0 <= i < |r| && i != at
      ensures !(prefix <= r[i])
    {
      ChompStarts(put[i], prefix);
      if i < at {
        assert put[i] == was[i];
      } else {
        assert put[i] == rest[i - at - 1];
      }
    }
  }

  lemma ChompStarts(l: string, prefix: string)
    ensures prefix <= Chomp(l) ==> prefix <= l
  {
  }

  /** The line does not start with the prefix. */
  function StartsOtherwise(prefix: string): string -> bool {
    l => !(prefix <= l)
  }

  lemma {:induction false} WithoutIsFilter(ls: seq<string>, prefix: string)
    ensures Without(ls, prefix) == Filter(StartsOtherwise(prefix), ls)
    decreases |ls|
  {
    if ls != [] {
      WithoutIsFilter(ls[..|ls| - 1], prefix);
    }
  }

  lemma {:induction false} FilterTwice(q: string -> bool, ls: seq<string>)
    ensures Filter(q, Filter(q, ls)) == Filter(q, ls)
    decreases |ls|
  {
    if ls != [] {
      var n := |ls| - 1;
      FilterTwice(q, ls[..n]);
      var f := Filter(q, ls[..n]);
      assert (f + [ls[n]])[..|f|] == f;
      assert f + [] == f;
    }
  }

  lemma PutKeepsOthers(was: seq<string>, prefix: string, line: string)
    requires prefix <= line
    ensures Filter(StartsOtherwise(prefix), PutLine(was, prefix, line)) == Filter(StartsOtherwise(prefix), was)
  {
    hide Without, FirstWith, Filter;
    var q, i := StartsOtherwise(prefix), FirstWith(was, prefix);
    WithoutIsFilter(was[i..], prefix);
    FilterTwice(q, was[i..]);
    FilterAppend(q, was[..i] + [line], Without(was[i..], prefix));
    FilterAppend(q, was[..i], [line]);
    FilterNone(q, [line]);
    assert Filter(q, was[..i]) + [] == Filter(q, was[..i]);
    FilterAppend(q, was[..i], was[i..]);
    assert was == was[..i] + was[i..];
  }

  lemma ChompKeepsStart(l: string, key: string)
    ensures key + "=" <= Chomp(l) <==> key + "=" <= l
  {
    var prefix := key + "=";
    if prefix <= l && EndsInCr(l) {
      assert l[|prefix| - 1] == prefix[|prefix| - 1] == '=';
    }
  }

  /** A single upsert keeps all lines that do not start with the key, with their contents and in order. */
  lemma OtherLinesStayAtUpsert(existing: string, key: string, value: string)
    requires '\n' !in key && '\n' !in value
    ensures var others, was := StartsOtherwise(key + "="), Lines(existing);
            Filter(others, Lines(Render(PutLine(was, key + "=", NewLine(key, value))))) == Chomped(Filter(others, was))
  {
    hide Lines, Render, PutLine, Filter, NewLine;
    var prefix, line, was := key + "=", NewLine(key, value), Lines(existing);
    NewLineIsOneLine(key, value);
    LinesAreLines(existing);
    KeyStarts(key, value);
    PutIsOneLiners(was, prefix, line);
    LinesOfRendered(PutLine(was, prefix, line));
    forall l
      ensures StartsOtherwise(prefix)(Chomp(l)) == StartsOtherwise(prefix)(l)
    {
      ChompKeepsStart(l, key);
    }
    hide Chomp, StartsOtherwise;
    FilterChomped(StartsOtherwise(prefix), PutLine(was, prefix, line));
    PutKeepsOthers(was, prefix, line);
  }
}
