/** The two quotings used for service files and command hints: for a shell and for XML. */
module Quoting {
  import opened Common
  import opened Text

  // ---------- the shell ----------

  function ShellQuote(raw: string): string {
    if raw == "" then "''" else "'" + Replace(raw, '\'', "'\"'\"'") + "'"
  }

  datatype Mode = Bare | Single | Double

  /** The characters that have a meaning of their own in an unquoted word (section 2.2 of the POSIX.1-2017
      Shell Command Language), other than quotes and blanks. */
  predicate Special(c: char) {
    || c == '|' || c == '&' || c == ';' || c == '<' || c == '>' || c == '(' || c == ')' || c == '$' || c == '`'
    || c == '*' || c == '?' || c == '[' || c == '#' || c == '~'
  }

  predicate Blank(c: char) {
    c == ' ' || c == '\t' || c == '\n'
  }

  /** The text of the current word, if one has begun. */
  function Begun(current: Option<string>): string {
    if current.None? then "" else current.value
  }

  function Word(first: string, others: Option<seq<string>>): Option<seq<string>> {
    if others.None? then None else Some([first] + others.value)
  }

  /** The words of a command line by the quoting rules of sections 2.2.1 to 2.2.3; none if the line needs
      an operator, an expansion or a closing quote. */
  function Words(s: string, mode: Mode, current: Option<string>): Option<seq<string>>
    decreases |s|
  {
    if s == "" then
      if mode != Bare then None else if current.None? then Some([]) else Some([current.value])
    else
      var c, rest, text := s[0], s[1..], Begun(current);
      match mode
      case Bare =>
        if c == '\'' then Words(rest, Single, Some(text))
        else if c == '"' then Words(rest, Double, Some(text))
        else if c == '\\' then
          if rest == "" then None
          else if rest[0] == '\n' then Words(rest[1..], Bare, current)
          else Words(rest[1..], Bare, Some(text + [rest[0]]))
        else if Blank(c) then
          if current.None? then Words(rest, Bare, None) else Word(current.value, Words(rest, Bare, None))
        else if Special(c) then None
        else Words(rest, Bare, Some(text + [c]))
      case Single =>
        if c == '\'' then Words(rest, Bare, Some(text)) else Words(rest, Single, Some(text + [c]))
      case Double =>
        if c == '"' then Words(rest, Bare, Some(text))
        else if c == '$' || c == '`' then None
        else if c == '\\' && rest != "" && rest[0] in "$`\"\\\n" then
          Words(rest[1..], Double, Some(if rest[0] == '\n' then text else text + [rest[0]]))
        else Words(rest, Double, Some(text + [c]))
  }

  lemma ReadOne(c: char, rest: string, mode: Mode, text: string)
    ensures mode == Bare && c == '\'' ==> Words([c] + rest, mode, Some(text)) == Words(rest, Single, Some(text))
    ensures mode == Bare && c == '"' ==> Words([c] + rest, mode, Some(text)) == Words(rest, Double, Some(text))
    ensures mode == Single && c == '\'' ==> Words([c] + rest, mode, Some(text)) == Words(rest, Bare, Some(text))
    ensures mode == Single && c != '\'' ==> Words([c] + rest, mode, Some(text)) == Words(rest, Single, Some(text + [c]))
    ensures mode == Double && c == '"' ==> Words([c] + rest, mode, Some(text)) == Words(rest, Bare, Some(text))
    ensures mode == Double && c == '\'' ==> Words([c] + rest, mode, Some(text)) == Words(rest, Double, Some(text + [c]))
  {
    assert ([c] + rest)[1..] == rest;
  }

  /** A quote written as `'"'"'` leaves the single quotes, adds a quoted quote and enters them again. */
  lemma ReadQuote(rest: string, text: string)
    ensures Words("'\"'\"'" + rest, Single, Some(text)) == Words(rest, Single, Some(text + "'"))
  {
    hide Words;
    var t1, t2, t3 := "'" + rest, "\"'" + rest, "'\"'" + rest;
    var t4 := "\"'\"'" + rest;
    assert t2 == "\"" + t1 && t3 == "'" + t2 && t4 == "\"" + t3 && "'\"'\"'" + rest == "'" + t4;
    ReadOne('\'', t4, Single, text);
    ReadOne('"', t3, Bare, text);
    ReadOne('\'', t2, Double, text);
    ReadOne('"', t1, Double, text + "'");
    ReadOne('\'', rest, Bare, text + "'");
  }

  lemma {:induction false} ReadQuoted(s: string, rest: string, text: string)
    ensures Words(Replace(s, '\'', "'\"'\"'") + rest, Single, Some(text)) == Words(rest, Single, Some(text + s))
    decreases |s|
  {
    hide Words;
    if s == "" {
      assert text + s == text && "" + rest == rest;
    } else {
      var tail := Replace(s[1..], '\'', "'\"'\"'") + rest;
      ReadQuoted(s[1..], rest, text + [s[0]]);
      assert text + [s[0]] + s[1..] == text + s;
      if s[0] == '\'' {
        assert Replace(s, '\'', "'\"'\"'") + rest == "'\"'\"'" + tail;
        ReadQuote(tail, text);
      } else {
        assert Replace(s, '\'', "'\"'\"'") + rest == [s[0]] + tail;
        ReadOne(s[0], tail, Single, text);
      }
    }
  }

  lemma OpenWord(rest: string, current: Option<string>)
    ensures Words("'" + rest, Bare, current) == Words(rest, Single, Some(Begun(current)))
  {
    assert ("'" + rest)[1..] == rest;
  }

  /** Wherever it stands outside quotes, a quoted text adds exactly itself to the word being read. */
  lemma QuotedAddsItself(s: string, rest: string, current: Option<string>)
    ensures Words(ShellQuote(s) + rest, Bare, current) == Words(rest, Bare, Some(Begun(current) + s))
  {
    hide Words;
    var body := Replace(s, '\'', "'\"'\"'");
    assert s == "" ==> body == "";
    assert ShellQuote(s) + rest == "'" + (body + ("'" + rest));
    OpenWord(body + ("'" + rest), current);
    ReadQuoted(s, "'" + rest, Begun(current));
    ReadOne('\'', rest, Single, Begun(current) + s);
  }

  lemma EndOfLine(current: Option<string>)
    ensures Words("", Bare, current) == Some(if current.None? then [] else [current.value])
  {
  }

  /** A quoted text is read as one word, equal to the text. */
  lemma QuotedIsOneWord(s: string)
    ensures Words(ShellQuote(s), Bare, None) == Some([s])
  {
    hide Words, ShellQuote;
    assert ShellQuote(s) + "" == ShellQuote(s) && "" + s == s;
    QuotedAddsItself(s, "", None);
    EndOfLine(Some(s));
  }

  // ---------- the command hint ----------

  ghost predicate Plain(p: string) {
    p != "" && forall i :: 0 <= i < |p| ==>
      !Special(p[i]) && !Blank(p[i]) && p[i] != '\'' && p[i] != '"' && p[i] != '\\'
  }

  lemma {:induction false} PlainAddsItself(p: string, rest: string, current: Option<string>)
    requires Plain(p)
    ensures Words(p + rest, Bare, current) == Words(rest, Bare, Some(Begun(current) + p))
    decreases |p|
  {
    var c := p[0];
    assert (p + rest)[1..] == p[1..] + rest && (p + rest)[0] == c;
    assert Words(p + rest, Bare, current) == Words(p[1..] + rest, Bare, Some(Begun(current) + [c]));
    if |p| == 1 {
      assert p[1..] + rest == rest && [c] == p;
    } else {
      PlainAddsItself(p[1..], rest, Some(Begun(current) + [c]));
      assert Begun(current) + [c] + p[1..] == Begun(current) + p;
    }
  }

  lemma BlankEndsWord(rest: string, word: string)
    ensures Words(" " + rest, Bare, Some(word)) == Word(word, Words(rest, Bare, None))
  {
    assert (" " + rest)[1..] == rest;
  }

  lemma PlainWord(p: string, rest: string)
    requires Plain(p)
    ensures Words(p + " " + rest, Bare, None) == Word(p, Words(rest, Bare, None))
  {
    hide Words, Plain;
    PlainAddsItself(p, " " + rest, None);
    assert p + " " + rest == p + (" " + rest) && "" + p == p;
    BlankEndsWord(rest, p);
  }

  lemma QuotedWord(before: string, s: string, rest: string)
    requires before == "" || Plain(before)
    ensures Words(before + ShellQuote(s) + " " + rest, Bare, None) == Word(before + s, Words(rest, Bare, None))
  {
    hide Words, Plain, ShellQuote;
    var q := ShellQuote(s) + (" " + rest);
    assert before + ShellQuote(s) + " " + rest == before + q;
    if before == "" {
      assert before + q == q;
      QuotedAddsItself(s, " " + rest, None);
    } else {
      PlainAddsItself(before, q, None);
      assert "" + before == before;
      QuotedAddsItself(s, " " + rest, Some(before));
    }
    BlankEndsWord(rest, before + s);
  }

  /** `openrc_command_hint`, with the base directory and the executable as texts. */
  function CommandHint(base: string, exe: string, action: string): string {
    "sudo env LUNARWING_BASE_DIR=" + ShellQuote(base) + " " + ShellQuote(exe) + " service " + action
  }

  /** A shell that is given the hint sees the intended six words, whatever the two paths contain. */
  lemma HintReadsBack(base: string, exe: string, action: string)
    requires Plain(action)
    ensures Words(CommandHint(base, exe, action), Bare, None)
         == Some(["sudo", "env", "LUNARWING_BASE_DIR=" + base, exe, "service", action])
  {
    hide Words, Word, Plain, ShellQuote;
    var assign := "LUNARWING_BASE_DIR=";
    var t5 := "service" + " " + action;
    var t4 := "" + ShellQuote(exe) + " " + t5;
    var t3 := assign + ShellQuote(base) + " " + t4;
    HintParts(ShellQuote(base), ShellQuote(exe), action);
    LiteralsArePlain();
    PlainWord("sudo", "env" + " " + t3);
    PlainWord("env", t3);
    QuotedWord(assign, base, t4);
    QuotedWord("", exe, t5);
    PlainWord("service", action);
    LastWord(action);
    assert "" + exe == exe;
    SixWords("sudo", "env", assign + base, exe, "service", action);
  }

  predicate Letter(c: char) {
    'a' <= c <= 'z' || 'A' <= c <= 'Z' || c == '_' || c == '='
  }

  lemma LettersArePlain(p: string)
    requires p != "" && forall i :: 0 <= i < |p| ==> Letter(p[i])
    ensures Plain(p)
  {
    forall i | 0 <= i < |p|
      ensures !Special(p[i]) && !Blank(p[i])
    {
      assert Letter(p[i]);
    }
  }

  lemma LiteralsArePlain()
    ensures Plain("sudo") && Plain("env") && Plain("service") && Plain("LUNARWING_BASE_DIR=")
  {
    hide Plain;
    LettersArePlain("sudo");
    LettersArePlain("env");
    LettersArePlain("service");
    LettersArePlain("LUNARWING_BASE_DIR=");
  }

  lemma LastWord(p: string)
    requires Plain(p)
    ensures Words(p, Bare, None) == Some([p])
  {
    hide Words, Plain;
    PlainAddsItself(p, "", None);
    assert p + "" == p && "" + p == p;
    EndOfLine(Some(p));
  }

  lemma SixWords(a: string, b: string, c: string, d: string, e: string, f: string)
    ensures Word(a, Word(b, Word(c, Word(d, Word(e, Some([f])))))) == Some([a, b, c, d, e, f])
  {
    assert [a] + ([b] + ([c] + ([d] + ([e] + [f])))) == [a, b, c, d, e, f];
  }

  lemma HintParts(base: string, exe: string, action: string)
    ensures "sudo env LUNARWING_BASE_DIR=" + base + " " + exe + " service " + action
         == "sudo" + " " + ("env" + " " + ("LUNARWING_BASE_DIR=" + base + " " + ("" + exe + " " + ("service" + " " + action))))
  {
    assert "sudo env LUNARWING_BASE_DIR=" == "sudo" + " " + ("env" + " " + "LUNARWING_BASE_DIR=");
    assert " service " == " " + ("service" + " ");
  }

  // ---------- XML ----------

  /** `xml_escape`: five replacements, one after the other. */
  function XmlEscape(raw: string): string {
    Replace(Replace(Replace(Replace(Replace(raw, '&', "&amp;"), '<', "&lt;"), '>', "&gt;"), '"', "&quot;"), '\'', "&apos;")
  }

  /** The reference of a character, by the predefined entities of section 4.6 of XML 1.0. */
  function Entity(c: char): string {
    if c == '&' then "&amp;" else if c == '<' then "&lt;" else if c == '>' then "&gt;"
    else if c == '"' then "&quot;" else if c == '\'' then "&apos;" else [c]
  }

  function EscapeEach(raw: string): string {
    if raw == "" then "" else Entity(raw[0]) + EscapeEach(raw[1..])
  }

  lemma XmlEscapeAppend(a: string, b: string)
    ensures XmlEscape(a + b) == XmlEscape(a) + XmlEscape(b)
  {
    hide Replace;
    var a1, b1 := Replace(a, '&', "&amp;"), Replace(b, '&', "&amp;");
    var a2, b2 := Replace(a1, '<', "&lt;"), Replace(b1, '<', "&lt;");
    var a3, b3 := Replace(a2, '>', "&gt;"), Replace(b2, '>', "&gt;");
    var a4, b4 := Replace(a3, '"', "&quot;"), Replace(b3, '"', "&quot;");
    ReplaceAppend(a, b, '&', "&amp;");
    ReplaceAppend(a1, b1, '<', "&lt;");
    ReplaceAppend(a2, b2, '>', "&gt;");
    ReplaceAppend(a3, b3, '"', "&quot;");
    ReplaceAppend(a4, b4, '\'', "&apos;");
  }

  lemma ReplaceOne(c: char, x: char, text: string)
    ensures Replace([c], x, text) == if c == x then text else [c]
  {
    assert [c][1..] == "";
    assert (if c == x then text else [c]) + "" == if c == x then text else [c];
  }

  lemma XmlEscapeOne(c: char)
    ensures XmlEscape([c]) == Entity(c)
  {
    hide Replace;
    ReplaceOne(c, '&', "&amp;");
    ReplaceOne(c, '<', "&lt;");
    ReplaceOne(c, '>', "&gt;");
    ReplaceOne(c, '"', "&quot;");
    ReplaceOne(c, '\'', "&apos;");
    if c == '&' {
      ReplaceAbsent("&amp;", '<', "&lt;");
      ReplaceAbsent("&amp;", '>', "&gt;");
      ReplaceAbsent("&amp;", '"', "&quot;");
      ReplaceAbsent("&amp;", '\'', "&apos;");
    } else if c == '<' {
      ReplaceAbsent("&lt;", '>', "&gt;");
      ReplaceAbsent("&lt;", '"', "&quot;");
      ReplaceAbsent("&lt;", '\'', "&apos;");
    } else if c == '>' {
      ReplaceAbsent("&gt;", '"', "&quot;");
      ReplaceAbsent("&gt;", '\'', "&apos;");
    } else if c == '"' {
      ReplaceAbsent("&quot;", '\'', "&apos;");
    }
  }

  /** No later replacement touches what an earlier one wrote: the chain is one map over characters. */
  lemma {:induction false} FiveReplacementsAreOne(raw: string)
    ensures XmlEscape(raw) == EscapeEach(raw)
    decreases |raw|
  {
    if raw != "" {
      hide XmlEscape, Entity;
      XmlEscapeAppend([raw[0]], raw[1..]);
      XmlEscapeOne(raw[0]);
      FiveReplacementsAreOne(raw[1..]);
      assert raw == [raw[0]] + raw[1..];
    }
  }

  function Prepend(c: char, r: Option<string>): Option<string> {
    if r.None? then None else Some([c] + r.value)
  }

  /** Character data read back; none if it holds markup or an unknown reference. */
  function XmlDecode(s: string): Option<string>
    decreases |s|
  {
    if s == "" then Some("")
    else if "&amp;" <= s then Prepend('&', XmlDecode(s[5..]))
    else if "&lt;" <= s then Prepend('<', XmlDecode(s[4..]))
    else if "&gt;" <= s then Prepend('>', XmlDecode(s[4..]))
    else if "&quot;" <= s then Prepend('"', XmlDecode(s[6..]))
    else if "&apos;" <= s then Prepend('\'', XmlDecode(s[6..]))
    else if s[0] in "&<>\"'" then None
    else Prepend(s[0], XmlDecode(s[1..]))
  }

  lemma DecodeOne(c: char, rest: string)
    ensures XmlDecode(Entity(c) + rest) == Prepend(c, XmlDecode(rest))
  {
    var s := Entity(c) + rest;
    assert s[|Entity(c)|..] == rest && s[..|Entity(c)|] == Entity(c);
    assert s[0] == if c in "&<>\"'" then '&' else c;
    if c == '<' {
      assert s[1] == 'l';
    } else if c == '>' {
      assert s[1] == 'g';
    } else if c == '"' {
      assert s[1] == 'q';
    } else if c == '\'' {
      assert s[1] == 'a' && s[2] == 'p';
    }
  }

  /** Decoding inverts escaping, so every text comes back and none can introduce markup. */
  lemma {:induction false} XmlRoundTrip(raw: string)
    ensures XmlDecode(XmlEscape(raw)) == Some(raw)
    decreases |raw|
  {
    hide XmlDecode, Entity, XmlEscape;
    FiveReplacementsAreOne(raw);
    if raw == "" {
      DecodeNothing();
    } else {
      FiveReplacementsAreOne(raw[1..]);
      DecodeOne(raw[0], EscapeEach(raw[1..]));
      XmlRoundTrip(raw[1..]);
      assert raw == [raw[0]] + raw[1..];
    }
  }

  lemma DecodeNothing()
    ensures XmlDecode("") == Some("")
  {
  }
}
