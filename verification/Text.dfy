/** Replacing, trimming and filtering of texts, and decimal numbers. */
module Text {

  /** `str::replace` of a character by a text. */
  function Replace(s: string, c: char, text: string): string {
    if s == "" then "" else (if s[0] == c then text else [s[0]]) + Replace(s[1..], c, text)
  }

  lemma {:induction false} ReplaceAppend(a: string, b: string, c: char, text: string)
    ensures Replace(a + b, c, text) == Replace(a, c, text) + Replace(b, c, text)
    decreases |a|
  {
    if a == "" {
      assert a + b == b;
    } else {
      assert (a + b)[1..] == a[1..] + b;
      ReplaceAppend(a[1..], b, c, text);
      var x := if a[0] == c then text else [a[0]];
      assert x + (Replace(a[1..], c, text) + Replace(b, c, text)) == x + Replace(a[1..], c, text) + Replace(b, c, text);
    }
  }

  /** A text without the character stays as it is. */
  lemma {:induction false} ReplaceAbsent(s: string, c: char, text: string)
    requires c !in s
    ensures Replace(s, c, text) == s
    decreases |s|
  {
    if s != "" {
      ReplaceAbsent(s[1..], c, text);
      assert s == [s[0]] + s[1..];
    }
  }

  // ---------- decimal numbers ----------

  function Decimal(n: nat): string {
    if n < 10 then [('0' as int + n) as char] else Decimal(n / 10) + [('0' as int + n % 10) as char]
  }

  /** The number a decimal text stands for. */
  function Value(s: string): int
    decreases |s|
  {
    if s == "" then 0 else 10 * Value(s[..|s| - 1]) + (s[|s| - 1] as int - '0' as int)
  }

  lemma {:induction false} DecimalReadsBack(n: nat)
    ensures Value(Decimal(n)) == n
  {
    var d := Decimal(n);
    if n < 10 {
      assert d[..0] == "";
    } else {
      DecimalReadsBack(n / 10);
      assert d[..|d| - 1] == Decimal(n / 10);
    }
  }

  lemma {:induction false} DecimalIsDigits(n: nat)
    ensures Decimal(n) != "" && forall i :: 0 <= i < |Decimal(n)| ==> '0' <= Decimal(n)[i] <= '9'
  {
    if n >= 10 {
      DecimalIsDigits(n / 10);
    }
  }

  // ---------- trimming and filtering ----------

  predicate All<T>(p: T -> bool, s: seq<T>) {
    forall i :: 0 <= i < |s| ==> p(s[i])
  }

  /** The text without the blanks at both ends. */
  function TrimBy<T>(blank: T -> bool, s: seq<T>): seq<T>
    decreases |s|
  {
    if s == [] then []
    else if blank(s[0]) then TrimBy(blank, s[1..])
    else if blank(s[|s| - 1]) then TrimBy(blank, s[..|s| - 1])
    else s
  }

  predicate Trimmed<T>(blank: T -> bool, s: seq<T>) {
    s == [] || (!blank(s[0]) && !blank(s[|s| - 1]))
  }

  /** Only blanks are cut off. */
  lemma {:induction false} TrimSplits<T>(blank: T -> bool, s: seq<T>) returns (a: seq<T>, b: seq<T>)
    ensures s == a + TrimBy(blank, s) + b && All(blank, a) && All(blank, b) && Trimmed(blank, TrimBy(blank, s))
    decreases |s|
  {
    a, b := [], [];
    if s != [] && blank(s[0]) {
      a, b := TrimSplits(blank, s[1..]);
      a := [s[0]] + a;
    } else if s != [] && blank(s[|s| - 1]) {
      a, b := TrimSplits(blank, s[..|s| - 1]);
      b := b + [s[|s| - 1]];
    }
  }

  /** And all of them: between blanks exactly the text is left that begins and ends with none. */
  lemma {:induction false} TrimOf<T>(blank: T -> bool, a: seq<T>, core: seq<T>, b: seq<T>)
    requires All(blank, a) && All(blank, b) && Trimmed(blank, core)
    ensures TrimBy(blank, a + core + b) == core
    decreases |a| + |b|, |b|
  {
    var s := a + core + b;
    if a != [] {
      assert s[1..] == a[1..] + core + b;
      TrimOf(blank, a[1..], core, b);
    } else if core == [] && b != [] {
      assert s == b + core + [];
      TrimOf(blank, b, core, []);
    } else if b != [] {
      assert s[..|s| - 1] == a + core + b[..|b| - 1];
      TrimOf(blank, a, core, b[..|b| - 1]);
    } else {
      assert s == core;
    }
  }

  function Filter<T>(keep: T -> bool, s: seq<T>): seq<T>
    decreases |s|
  {
    if s == [] then []
    else Filter(keep, s[..|s| - 1]) + if keep(s[|s| - 1]) then [s[|s| - 1]] else []
  }

  lemma {:induction false} FilterAppend<T>(keep: T -> bool, a: seq<T>, b: seq<T>)
    ensures Filter(keep, a + b) == Filter(keep, a) + Filter(keep, b)
    decreases |b|
  {
    if b == [] {
      assert a + b == a;
    } else {
      var n := |b| - 1;
      var more := if keep(b[n]) then [b[n]] else [];
      assert (a + b)[..|a| + n] == a + b[..n] && (a + b)[|a| + n] == b[n];
      FilterAppend(keep, a, b[..n]);
      assert Filter(keep, a) + (Filter(keep, b[..n]) + more) == Filter(keep, a) + Filter(keep, b[..n]) + more;
    }
  }

  /** Exactly the elements to be kept are, each as often as before. */
  lemma {:induction false} FilterCounts<T>(keep: T -> bool, s: seq<T>, x: T)
    ensures multiset(Filter(keep, s))[x] == if keep(x) then multiset(s)[x] else 0
    decreases |s|
  {
    if s != [] {
      FilterCounts(keep, s[..|s| - 1], x);
      assert s == s[..|s| - 1] + [s[|s| - 1]];
    }
  }

  /** Nothing is left if no element is to be kept. */
  lemma {:induction false} FilterNone<T>(keep: T -> bool, s: seq<T>)
    requires forall i :: 0 <= i < |s| ==> !keep(s[i])
    ensures Filter(keep, s) == []
    decreases |s|
  {
    if s != [] {
      FilterNone(keep, s[..|s| - 1]);
    }
  }
}
