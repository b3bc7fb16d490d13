/** The text clean-up at the start of `RendererDxf.draw_text` (mpldxf/backend_dxf.py):
    Unicode minus to hyphen, then, for a string that starts with `$`, three regular-expression
    substitutions that strip math markup. */
module TextCleanup {
  import opened Results
  import opened Sequences

  /** U+2212 MINUS SIGN, which matplotlib uses in tick labels. */
  const UnicodeMinus: char := '\U{2212}'

  /** The literal text `\mathbf{` that opens the bold wrapper. */
  const BoldOpen: string := "\\mathbf{"

  /** `s.replace("\u2212", "-")`. */
  function ReplaceMinus(s: string): (r: string)
    ensures |r| == |s|
    ensures forall i :: 0 <= i < |s| ==> r[i] == (if s[i] == UnicodeMinus then '-' else s[i])
    ensures UnicodeMinus !in r
  {
    if s == [] then [] else [if s[0] == UnicodeMinus then '-' else s[0]] + ReplaceMinus(s[1..])
  }

  /** Where the lazy group `(.*?)\}` stops when it starts at `k`: the first `}` at or after `k`,
      unless a newline (which `.` does not match) comes first. */
  function CloseBrace(s: string, k: nat): (j: Option<nat>)
    requires k <= |s|
    ensures j.Some? ==> k <= j.value < |s| && s[j.value] == '}'
    ensures j.Some? ==> forall i :: k <= i < j.value ==> s[i] != '}' && s[i] != '\n'
    ensures j.None? ==> forall i :: k <= i < |s| && s[i] == '}' ==> '\n' in s[k..i]
    decreases |s| - k
  {
    if k == |s| then None
    else if s[k] == '}' then Some(k)
    else if s[k] == '\n' then None
    else CloseBrace(s, k + 1)
  }

  predicate StartsWith(s: string, prefix: string) {
    |prefix| <= |s| && s[..|prefix|] == prefix
  }

  /** `re.sub(r"\\mathbf\{(.*?)\}", r"\1", s)`: scanning left to right, each `\mathbf{` that
      has a closing `}` on the same line is replaced by the text between them; scanning goes on
      after that `}`. */
  function StripBold(s: string): (r: string)
    ensures |r| <= |s|
    ensures forall c :: c in r ==> c in s
    decreases |s|
  {
    if s == [] then []
    else if StartsWith(s, BoldOpen) && CloseBrace(s, |BoldOpen|).Some? then
      var j := CloseBrace(s, |BoldOpen|).value;
      s[|BoldOpen|..j] + StripBold(s[j + 1..])
    else [s[0]] + StripBold(s[1..])
  }

  /** `re.sub(r"[$]", "", s)`. */
  function StripDollars(s: string): (r: string)
    ensures '$' !in r
    ensures forall c :: c in r <==> c in s && c != '$'
    ensures '$' !in s ==> r == s
  {
    if s == [] then []
    else if s[0] == '$' then StripDollars(s[1..])
    else [s[0]] + StripDollars(s[1..])
  }

  /** `re.sub(r"\\/", " ", s)`: each backslash followed by a slash becomes one space. */
  function ReplaceThinSpace(s: string): (r: string)
    ensures forall c :: c in r ==> c in s || c == ' '
    ensures '\\' !in s ==> r == s
  {
    if s == [] then []
    else if |s| >= 2 && s[0] == '\\' && s[1] == '/' then [' '] + ReplaceThinSpace(s[2..])
    else [s[0]] + ReplaceThinSpace(s[1..])
  }

  /** A backslash-free prefix passes through `ReplaceThinSpace` and the scan goes on after it. */
  lemma {:induction false} ReplaceThinSpacePrefix(a: string, t: string)
    requires '\\' !in a
    ensures ReplaceThinSpace(a + t) == a + ReplaceThinSpace(t)
    decreases |a|
  {
    if a == [] {
      assert a + t == t;
    } else {
      var s := a + t;
      assert s[0] == a[0] && s[1..] == a[1..] + t;
      ReplaceThinSpaceHead(s);
      ReplaceThinSpacePrefix(a[1..], t);
      ConsAssociates(a, ReplaceThinSpace(t));
    }
  }

  /** The first `\/` of a string becomes one space. */
  lemma ReplaceThinSpaceFirst(a: string, b: string)
    requires '\\' !in a
    ensures ReplaceThinSpace(a + "\\/" + b) == a + " " + ReplaceThinSpace(b)
  {
    assert a + "\\/" + b == a + ("\\/" + b);
    ReplaceThinSpacePrefix(a, "\\/" + b);
    ReplaceThinSpaceAt(b);
  }

  /** A `\/` at the start becomes one space. */
  lemma ReplaceThinSpaceAt(b: string)
    ensures ReplaceThinSpace("\\/" + b) == " " + ReplaceThinSpace(b)
  {
    assert ("\\/" + b)[2..] == b;
  }

  /** A first character other than a backslash is kept and the scan goes on after it. */
  lemma ReplaceThinSpaceHead(s: string)
    requires s != [] && s[0] != '\\'
    ensures ReplaceThinSpace(s) == [s[0]] + ReplaceThinSpace(s[1..])
  {
  }

  /** A backslash not followed by `/` is kept. */
  lemma OtherBackslashKept(c: char, b: string)
    requires c != '/'
    ensures ReplaceThinSpace(['\\', c] + b) == ['\\'] + ReplaceThinSpace([c] + b)
  {
    assert (['\\', c] + b)[1..] == [c] + b;
  }

  /** `draw_text` reads `s[0]`, which raises `IndexError` on an empty string. */
  datatype TextError = EmptyText

  /** The string handed to `add_text`. The `encode("ascii", "ignore")` call discards its result,
      so characters outside ASCII are kept. */
  function CleanText(s: string): (r: Result<string, TextError>)
    ensures r.Failure? <==> s == []
    ensures r.Success? ==> UnicodeMinus !in r.value
    ensures s != [] && s[0] == '$' ==> '$' !in r.value
    ensures s != [] && s[0] != '$' ==> r == Success(ReplaceMinus(s))
  {
    var t := ReplaceMinus(s);
    if t == [] then Failure(EmptyText)
    else if t[0] == '$' then Success(ReplaceThinSpace(StripDollars(StripBold(t))))
    else Success(t)
  }

  /** A string that does not start with `$` and has no minus sign, ASCII or not, passes through. */
  lemma PlainTextUnchanged(s: string)
    requires s != [] && s[0] != '$' && UnicodeMinus !in s
    ensures CleanText(s) == Success(s)
  {
    assert ReplaceMinus(s) == s;
  }

  /** A bold wrapper whose body has no `}` and no newline is replaced by its body, and
      scanning resumes after it. */
  lemma StripBoldWrapper(x: string, rest: string)
    requires '}' !in x && '\n' !in x
    ensures StripBold(BoldOpen + x + "}" + rest) == x + StripBold(rest)
  {
    var s := BoldOpen + x + "}" + rest;
    assert s[..|BoldOpen|] == BoldOpen;
    CloseBraceAt(s, |BoldOpen|, |BoldOpen| + |x|);
    assert s[|BoldOpen|..|BoldOpen| + |x|] == x;
    assert s[|BoldOpen| + |x| + 1..] == rest;
  }

  /** The first `}` after `k` with no newline in between is where `CloseBrace` stops. */
  lemma {:induction false} CloseBraceAt(s: string, k: nat, j: nat)
    requires k <= j < |s| && s[j] == '}'
    requires forall i :: k <= i < j ==> s[i] != '}' && s[i] != '\n'
    ensures CloseBrace(s, k) == Some(j)
    decreases j - k
  {
    if k < j {
      CloseBraceAt(s, k + 1, j);
    }
  }

  /** Text without a backslash has no bold wrapper to strip. */
  lemma {:induction false} StripBoldNoBackslash(s: string)
    requires '\\' !in s
    ensures StripBold(s) == s
    decreases |s|
  {
    if s != [] {
      assert s[0] != '\\';
      assert |s| < |BoldOpen| || s[..|BoldOpen|][0] != BoldOpen[0];
      assert '\\' !in s[1..];
      StripBoldNoBackslash(s[1..]);
    }
  }

  /** A backslash-free prefix passes through, and the wrapper scan continues after it. */
  lemma {:induction false} StripBoldPrefix(p: string, s: string)
    requires '\\' !in p
    ensures StripBold(p + s) == p + StripBold(s)
    decreases |p|
  {
    if p == [] {
      assert p + s == s;
    } else {
      var t := p + s;
      assert t[0] == p[0] && p[0] != '\\';
      assert |t| < |BoldOpen| || t[..|BoldOpen|][0] != BoldOpen[0];
      StripBoldHead(t);
      assert t[1..] == p[1..] + s;
      assert '\\' !in p[1..];
      StripBoldPrefix(p[1..], s);
      ConsAssociates(p, StripBold(s));
    }
  }

  /** Every closed bold wrapper after backslash-free text is replaced by its body. */
  lemma StripBoldAfterPrefix(p: string, x: string, rest: string)
    requires '\\' !in p && '}' !in x && '\n' !in x
    ensures StripBold(p + BoldOpen + x + "}" + rest) == p + x + StripBold(rest)
  {
    assert p + BoldOpen + x + "}" + rest == p + (BoldOpen + x + "}" + rest);
    StripBoldPrefix(p, BoldOpen + x + "}" + rest);
    StripBoldWrapper(x, rest);
  }

  /** `CloseBrace` finds nothing when the line ends, or the string does, before any `}`. */
  lemma {:induction false} CloseBraceNone(s: string, k: nat, j: nat)
    requires k <= j <= |s| && (j == |s| || s[j] == '\n')
    requires forall i :: k <= i < j ==> s[i] != '}' && s[i] != '\n'
    ensures CloseBrace(s, k) == None
    decreases j - k
  {
    if k < j {
      CloseBraceNone(s, k + 1, j);
    }
  }

  /** A bold wrapper with no `}` before the end of its line or of the string is kept as it is,
      and the scan goes on after it. */
  lemma StripBoldUnclosed(x: string, y: string)
    requires '\\' !in x && '}' !in x && '\n' !in x
    requires y == [] || y[0] == '\n'
    ensures StripBold(BoldOpen + x + y) == BoldOpen + x + StripBold(y)
  {
    var p := BoldOpen + x;
    var s := p + y;
    UnclosedHead(x, y);
    TailOfAppend(p, y);
    TailOfAppend(BoldOpen, x);
    assert '\\' !in BoldOpen[1..];
    StripBoldPrefix(p[1..], y);
    ConsAssociates(p, StripBold(y));
  }

  /** An unclosed bold wrapper is not replaced: its backslash is kept and the scan goes on. */
  lemma UnclosedHead(x: string, y: string)
    requires '}' !in x && '\n' !in x
    requires y == [] || y[0] == '\n'
    ensures var s := BoldOpen + x + y; StripBold(s) == [s[0]] + StripBold(s[1..])
  {
    var s := BoldOpen + x + y;
    assert s[..|BoldOpen|] == BoldOpen;
    CloseBraceNone(s, |BoldOpen|, |BoldOpen| + |x|);
    StripBoldHead(s);
  }

  /** Where no closed wrapper starts, the first character is kept and the scan goes on. */
  lemma StripBoldHead(s: string)
    requires s != [] && !(StartsWith(s, BoldOpen) && CloseBrace(s, |BoldOpen|).Some?)
    ensures StripBold(s) == [s[0]] + StripBold(s[1..])
  {
  }

  /** `$\mathbf{X}$` for a body X free of markup becomes X. */
  lemma MathBoldStripped(x: string)
    requires '}' !in x && '\n' !in x && '$' !in x && '\\' !in x && UnicodeMinus !in x
    ensures CleanText("$" + BoldOpen + x + "}$") == Success(x)
  {
    var s := "$" + BoldOpen + x + "}$";
    assert ReplaceMinus(s) == s;
    assert s == "$" + BoldOpen + x + "}" + "$";
    StripBoldAfterPrefix("$", x, "$");
    StripBoldNoBackslash("$");
    var u := "$" + x + "$";
    assert StripBold(s) == u;
    assert StripDollars(u) == x by {
      assert u == "$" + (x + "$");
      assert StripDollars(u) == StripDollars(x + "$");
      StripDollarsAppend(x, "$");
    }
  }

  /** A `\/` not opening a bold wrapper survives the bold stripping. */
  lemma StripBoldThinSpace(rest: string)
    requires '\\' !in rest
    ensures StripBold("\\/" + rest) == "\\/" + rest
  {
    var s := "\\/" + rest;
    assert |s| < |BoldOpen| || s[..|BoldOpen|][1] != BoldOpen[1];
    StripBoldHead(s);
    assert s[1..] == "/" + rest;
    StripBoldNoBackslash(s[1..]);
    HeadSplits(s);
  }

  /** Removing the enclosing dollars of `$a$` leaves a when a has none. */
  lemma StripDollarsEnclosed(a: string)
    requires '$' !in a
    ensures StripDollars("$" + a + "$") == a
  {
    var u := "$" + a + "$";
    assert u == "$" + (a + "$");
    assert StripDollars(u) == StripDollars(a + "$");
    StripDollarsAppend(a, "$");
  }

  /** A string that starts with `$` and has no minus sign goes through the three math
      substitutions. */
  lemma CleanMath(s: string)
    requires s != [] && s[0] == '$' && UnicodeMinus !in s
    ensures CleanText(s) == Success(ReplaceThinSpace(StripDollars(StripBold(s))))
  {
    assert ReplaceMinus(s) == s;
  }

  /** `$a\/b$` with backslash-free a and b has no bold wrapper. */
  lemma StripBoldKeepsThinSpace(a: string, b: string)
    requires '\\' !in a && '\\' !in b
    ensures StripBold("$" + a + "\\/" + b + "$") == "$" + a + "\\/" + b + "$"
  {
    var s := "$" + a + "\\/" + b + "$";
    assert s == ("$" + a) + ("\\/" + (b + "$"));
    StripBoldPrefix("$" + a, "\\/" + (b + "$"));
    StripBoldThinSpace(b + "$");
  }

  /** `$p\mathbf{x}q$` loses its bold wrapper and keeps the rest. */
  lemma StripBoldInMath(p: string, x: string, q: string)
    requires '\\' !in p && '\\' !in q && '}' !in x && '\n' !in x
    ensures StripBold("$" + p + BoldOpen + x + "}" + q + "$") == "$" + p + x + q + "$"
  {
    assert "$" + p + BoldOpen + x + "}" + q + "$" == ("$" + p) + BoldOpen + x + "}" + (q + "$");
    StripBoldAfterPrefix("$" + p, x, q + "$");
    StripBoldNoBackslash(q + "$");
    assert ("$" + p) + x + (q + "$") == "$" + p + x + q + "$";
  }

  /** In a math string, each `\/` is written as a space: `$a\/b$` with plain a and b becomes
      "a b". */
  lemma CleanThinSpace(a: string, b: string)
    requires '\\' !in a && '$' !in a && UnicodeMinus !in a
    requires '\\' !in b && '$' !in b && UnicodeMinus !in b
    ensures CleanText("$" + a + "\\/" + b + "$") == Success(a + " " + b)
  {
    var m := a + "\\/" + b;
    assert "$" + a + "\\/" + b + "$" == "$" + m + "$";
    assert UnicodeMinus !in "$" + m + "$";
    CleanMath("$" + m + "$");
    StripBoldKeepsThinSpace(a, b);
    StripDollarsEnclosed(m);
    ReplaceThinSpaceFirst(a, b);
  }

  /** In a math string, a bold wrapper anywhere is replaced by its body: `$p\mathbf{x}q$` with
      plain p, x and q becomes "pxq". */
  lemma CleanBoldAnywhere(p: string, x: string, q: string)
    requires '\\' !in p && '$' !in p && UnicodeMinus !in p
    requires '\\' !in x && '$' !in x && UnicodeMinus !in x && '}' !in x && '\n' !in x
    requires '\\' !in q && '$' !in q && UnicodeMinus !in q
    ensures CleanText("$" + p + BoldOpen + x + "}" + q + "$") == Success(p + x + q)
  {
    var s := "$" + p + BoldOpen + x + "}" + q + "$";
    assert UnicodeMinus !in s;
    CleanMath(s);
    StripBoldInMath(p, x, q);
    MiddleGroups("$", p, x, q, "$");
    StripDollarsEnclosed(p + x + q);
  }

  /** Stripping dollars distributes over concatenation. */
  lemma {:induction false} StripDollarsAppend(a: string, b: string)
    ensures StripDollars(a + b) == StripDollars(a) + StripDollars(b)
    decreases |a|
  {
    if a != [] {
      assert (a + b)[1..] == a[1..] + b;
      StripDollarsAppend(a[1..], b);
    } else {
      assert a + b == b;
    }
  }

  /** The tick label `$\mathbf{5}$` becomes "5". */
  lemma BoldFiveExample()
    ensures CleanText("$\\mathbf{5}$") == Success("5")
  {
    assert "$\\mathbf{5}$" == "$" + BoldOpen + "5" + "}$";
    MathBoldStripped("5");
  }
}
