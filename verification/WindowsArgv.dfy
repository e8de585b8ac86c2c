/** Building a Windows command line, against the documented rules by which a C program takes it apart again. */
module WindowsArgv {

  /** A UTF-16 code unit. */
  type Unit = b: int | 0 <= b < 0x1_0000

  const NUL: Unit := 0
  const TAB: Unit := 9
  const SPACE: Unit := 32
  const QUOTE: Unit := 34
  const BACKSLASH: Unit := 92

  predicate IsBlank(c: Unit)
  {
    c == SPACE || c == TAB
  }

  function Slashes(n: nat): (r: seq<Unit>)
    ensures |r| == n && forall i | 0 <= i < n :: r[i] == BACKSLASH
  {
    seq(n, i requires 0 <= i < n => BACKSLASH)
  }

  // ---- how the command line is built ---------------------------------------------------------------

  predicate NeedsQuotes(arg: seq<Unit>)
  {
    |arg| == 0 || exists i | 0 <= i < |arg| :: IsBlank(arg[i])
  }

  /** What one unit pushes when `n` backslashes have just been pushed. */
  function Pushed(c: Unit, n: nat): (r: seq<Unit>)
  {
    (if c == QUOTE then Slashes(n * 2 + 1) else []) + [c]
  }

  function Counted(c: Unit, n: nat): (r: nat)
  {
    if c == BACKSLASH then n + 1 else 0
  }

  /** The loop over an argument. */
  function Escaped(arg: seq<Unit>, n: nat): (r: seq<Unit>)
  {
    if |arg| == 0 then [] else Pushed(arg[0], n) + Escaped(arg[1..], Counted(arg[0], n))
  }

  /** The length of the run of backslashes at the end of `arg`, when `n` come before it. */
  function Run(arg: seq<Unit>, n: nat): (r: nat)
    ensures r <= n + |arg|
  {
    if |arg| == 0 then n else Run(arg[1..], Counted(arg[0], n))
  }

  function Quoted(arg: seq<Unit>): (r: seq<Unit>)
  {
    if NeedsQuotes(arg) then [QUOTE] + Escaped(arg, 0) + Slashes(Run(arg, 0)) + [QUOTE] else Escaped(arg, 0)
  }

  /** The arguments after the program, each behind a space. */
  function Arguments(args: seq<seq<Unit>>): (r: seq<Unit>)
  {
    if |args| == 0 then [] else [SPACE] + Quoted(args[0]) + Arguments(args[1..])
  }

  function CommandLine(program: seq<Unit>, args: seq<seq<Unit>>): (r: seq<Unit>)
  {
    Quoted(program) + Arguments(args)
  }

  // ---- Microsoft, "Parsing C command-line arguments" ----------------------------------------------------

  /** One argument off the front: its value, and what is left. */
  datatype Parsed = Parsed(value: seq<Unit>, rest: seq<Unit>)

  function Prepend(front: seq<Unit>, p: Parsed): (r: Parsed)
  {
    Parsed(front + p.value, p.rest)
  }

  /**
   Backslashes are literal unless they come right before a quotation mark: then each pair is one
   backslash, and an odd one out makes the mark literal.  A mark that is not literal opens or closes a
   quoted part, except that a pair of marks in a quoted part is one literal mark.  White space ends the
   argument outside quoted parts.  `n` backslashes have been read and not yet taken.
   */
  function ParseArgument(s: seq<Unit>, quoted: bool, n: nat): (r: Parsed)
    ensures |r.rest| <= |s|
    ensures |s| > 0 && !IsBlank(s[0]) ==> |r.rest| < |s|
    decreases |s|
  {
    if |s| == 0 then Parsed(Slashes(n), [])
    else if s[0] == BACKSLASH then ParseArgument(s[1..], quoted, n + 1)
    else if s[0] == QUOTE then
      if n % 2 == 1 then Prepend(Slashes(n / 2) + [QUOTE], ParseArgument(s[1..], quoted, 0))
      else if quoted && |s| > 1 && s[1] == QUOTE then Prepend(Slashes(n / 2) + [QUOTE], ParseArgument(s[2..], quoted, 0))
      else Prepend(Slashes(n / 2), ParseArgument(s[1..], !quoted, 0))
    else if IsBlank(s[0]) && !quoted then Parsed(Slashes(n), s)
    else Prepend(Slashes(n) + [s[0]], ParseArgument(s[1..], quoted, 0))
  }

  function SkipBlanks(s: seq<Unit>): (r: seq<Unit>)
    ensures |r| <= |s|
    ensures |r| > 0 ==> !IsBlank(r[0])
  {
    if |s| == 0 || !IsBlank(s[0]) then s else SkipBlanks(s[1..])
  }

  function ParseArguments(s: seq<Unit>): (r: seq<seq<Unit>>)
    decreases |s|
  {
    var t := SkipBlanks(s);
    if |t| == 0 then [] else
      var first := ParseArgument(t, false, 0);
      [first.value] + ParseArguments(first.rest)
  }

  /** The program name: quotation marks only protect white space, and backslashes are never special. */
  function ParseProgram(s: seq<Unit>, quoted: bool): (r: Parsed)
  {
    if |s| == 0 then Parsed([], [])
    else if s[0] == QUOTE then ParseProgram(s[1..], !quoted)
    else if IsBlank(s[0]) && !quoted then Parsed([], s)
    else Prepend([s[0]], ParseProgram(s[1..], quoted))
  }

  function Parse(s: seq<Unit>): (r: seq<seq<Unit>>)
  {
    var program := ParseProgram(s, false);
    [program.value] + ParseArguments(program.rest)
  }

  /** The new process sees the command line as a string that ends at its first NUL. */
  function UpToNul(s: seq<Unit>): (r: seq<Unit>)
  {
    if |s| == 0 || s[0] == NUL then [] else [s[0]] + UpToNul(s[1..])
  }

  // ---- one argument ----------------------------------------------------------------------------------------

  /** A quotation mark right behind a backslash, with `n` backslashes in front of `arg`. */
  predicate MarkAfterSlash(arg: seq<Unit>, n: nat)
  {
    |arg| > 0 && ((arg[0] == QUOTE && n > 0) || MarkAfterSlash(arg[1..], if arg[0] == BACKSLASH then n + 1 else 0))
  }

  lemma {:induction false} MarkAfterSlashMeans(arg: seq<Unit>, n: nat)
    ensures MarkAfterSlash(arg, n) <==>
              || (|arg| > 0 && n > 0 && arg[0] == QUOTE)
              || exists i | 0 < i < |arg| :: arg[i] == QUOTE && arg[i - 1] == BACKSLASH
    decreases |arg|
  {
    if |arg| > 0 {
      var m := if arg[0] == BACKSLASH then n + 1 else 0;
      MarkAfterSlashMeans(arg[1..], m);
      if exists i | 0 < i < |arg| :: arg[i] == QUOTE && arg[i - 1] == BACKSLASH {
        var i :| 0 < i < |arg| && arg[i] == QUOTE && arg[i - 1] == BACKSLASH;
        assert arg[1..][i - 1] == QUOTE && (i > 1 ==> arg[1..][i - 2] == BACKSLASH);
      }
      if exists i | 0 < i < |arg[1..]| :: arg[1..][i] == QUOTE && arg[1..][i - 1] == BACKSLASH {
        var i :| 0 < i < |arg[1..]| && arg[1..][i] == QUOTE && arg[1..][i - 1] == BACKSLASH;
        assert arg[i + 1] == QUOTE && arg[i] == BACKSLASH;
      }
      if |arg| > 1 && m > 0 && arg[1..][0] == QUOTE {
        assert arg[1] == QUOTE && arg[0] == BACKSLASH;
      }
    }
  }

  /** Escaped text that may stand here: white space only inside quotes. */
  predicate Fits(arg: seq<Unit>, quoted: bool)
  {
    quoted || forall i | 0 <= i < |arg| :: !IsBlank(arg[i])
  }

  /** Backslashes read one by one only add up. */
  lemma {:induction false} ReadSlashes(k: nat, s: seq<Unit>, quoted: bool, n: nat)
    ensures ParseArgument(Slashes(k) + s, quoted, n) == ParseArgument(s, quoted, n + k)
    decreases k
  {
    if k == 0 {
      assert Slashes(0) + s == s;
    } else {
      assert (Slashes(k) + s)[1..] == Slashes(k - 1) + s;
      ReadSlashes(k - 1, s, quoted, n + 1);
    }
  }

  predicate Differ(value: seq<Unit>, text: seq<Unit>)
  {
    exists i | 0 <= i < |text| :: i < |value| && value[i] != text[i]
  }

  /**
   Parsing undoes escaping, up to the backslashes at the end, which what follows decides about; unless a
   quotation mark comes right behind a backslash: then a backslash appears where the mark should be.
   */
  ghost predicate Undone(arg: seq<Unit>, n: nat, tail: seq<Unit>, quoted: bool)
  {
    var m := Run(arg, n);
    Outcome(Slashes(n) + arg, m, MarkAfterSlash(arg, n), ParseArgument(Escaped(arg, n) + tail, quoted, n), ParseArgument(tail, quoted, m))
  }

  /** `r` continues with `after` behind `text` without its last `m` units, or, when `bad`, is visibly not `text`. */
  ghost predicate Outcome(text: seq<Unit>, m: nat, bad: bool, r: Parsed, after: Parsed)
  {
    if bad then Differ(r.value, text) else m <= |text| && r == Prepend(text[..|text| - m], after)
  }

  /** Three times the backslashes, and one, before a mark: with none before it, a literal mark; else a backslash too many. */
  lemma EscapedMark(rest: seq<Unit>, n: nat, tail: seq<Unit>, quoted: bool)
    ensures var r := ParseArgument(Escaped([QUOTE] + rest, n) + tail, quoted, n);
            && (n == 0 ==> r == Prepend([QUOTE], ParseArgument(Escaped(rest, 0) + tail, quoted, 0)))
            && (n > 0 ==> n < |r.value| && r.value[n] == BACKSLASH)
  {
    var more := Escaped(rest, 0) + tail;
    assert ([QUOTE] + rest)[1..] == rest;
    assert Escaped([QUOTE] + rest, n) + tail == Slashes(n * 2 + 1) + ([QUOTE] + more);
    ReadSlashes(n * 2 + 1, [QUOTE] + more, quoted, n);
    assert ([QUOTE] + more)[1..] == more;
    if n == 0 {
      assert Slashes(0) + [QUOTE] == [QUOTE];
    }
  }

  lemma ShiftOutcome(front: seq<Unit>, text: seq<Unit>, m: nat, bad: bool, r: Parsed, after: Parsed)
    requires Outcome(text, m, bad, r, after)
    ensures Outcome(front + text, m, bad, Prepend(front, r), after)
  {
    if bad {
      var i :| 0 <= i < |text| && i < |r.value| && r.value[i] != text[i];
      assert (front + r.value)[|front| + i] == r.value[i] && (front + text)[|front| + i] == text[i];
    } else {
      assert (front + text)[..|front + text| - m] == front + text[..|text| - m];
      assert front + (text[..|text| - m] + after.value) == front + text[..|text| - m] + after.value;
    }
  }

  lemma UndoneNothing(n: nat, tail: seq<Unit>, quoted: bool)
    ensures Undone([], n, tail, quoted)
  {
    assert Escaped([], n) + tail == tail;
    assert (Slashes(n) + [])[..0] == [];
    var r := ParseArgument(tail, quoted, n);
    assert [] + r.value == r.value;
  }

  /** How each of the functions takes the first unit. */
  lemma FirstUnit(c: Unit, rest: seq<Unit>, n: nat, tail: seq<Unit>)
    ensures var m := Counted(c, n);
      && Run([c] + rest, n) == Run(rest, m)
      && Escaped([c] + rest, n) == Pushed(c, n) + Escaped(rest, m)
      && (c != QUOTE ==> Escaped([c] + rest, n) + tail == [c] + (Escaped(rest, m) + tail))
      && (MarkAfterSlash([c] + rest, n) <==> (c == QUOTE && n > 0) || MarkAfterSlash(rest, m))
  {
    assert ([c] + rest)[1..] == rest;
    assert c != QUOTE ==> Pushed(c, n) == [c];
    var m := Counted(c, n);
    assert [c] + Escaped(rest, m) + tail == [c] + (Escaped(rest, m) + tail);
  }

  lemma UndoneSlash(rest: seq<Unit>, n: nat, tail: seq<Unit>, quoted: bool)
    requires Undone(rest, n + 1, tail, quoted)
    ensures Undone([BACKSLASH] + rest, n, tail, quoted)
  {
    hide Outcome, Escaped, Run, MarkAfterSlash;
    FirstUnit(BACKSLASH, rest, n, tail);
    var more := Escaped(rest, n + 1) + tail;
    assert ([BACKSLASH] + more)[1..] == more;
    assert ParseArgument([BACKSLASH] + more, quoted, n) == ParseArgument(more, quoted, n + 1);
    hide ParseArgument;
    assert Slashes(n) + ([BACKSLASH] + rest) == Slashes(n + 1) + rest;
  }

  lemma UndoneMark(rest: seq<Unit>, n: nat, tail: seq<Unit>, quoted: bool)
    requires Undone(rest, 0, tail, quoted)
    ensures Undone([QUOTE] + rest, n, tail, quoted)
  {
    hide ParseArgument, Escaped, Run, MarkAfterSlash;
    FirstUnit(QUOTE, rest, n, tail);
    EscapedMark(rest, n, tail, quoted);
    var text, m := Slashes(n) + ([QUOTE] + rest), Run(rest, 0);
    assert Slashes(0) + rest == rest;
    if n == 0 {
      assert text == [QUOTE] + rest;
      hide Outcome;
      ShiftOutcome([QUOTE], rest, m, MarkAfterSlash(rest, 0), ParseArgument(Escaped(rest, 0) + tail, quoted, 0), ParseArgument(tail, quoted, m));
    } else {
      assert text[n] == QUOTE;
    }
  }

  lemma UndoneOther(c: Unit, rest: seq<Unit>, n: nat, tail: seq<Unit>, quoted: bool)
    requires c != QUOTE && c != BACKSLASH && (quoted || !IsBlank(c))
    requires Undone(rest, 0, tail, quoted)
    ensures Undone([c] + rest, n, tail, quoted)
  {
    hide Outcome, Escaped, Run, MarkAfterSlash;
    FirstUnit(c, rest, n, tail);
    var more, m := Escaped(rest, 0) + tail, Run(rest, 0);
    assert ([c] + more)[1..] == more;
    assert ParseArgument([c] + more, quoted, n) == Prepend(Slashes(n) + [c], ParseArgument(more, quoted, 0));
    hide ParseArgument;
    assert Slashes(n) + ([c] + rest) == Slashes(n) + [c] + rest && Slashes(0) + rest == rest;
    ShiftOutcome(Slashes(n) + [c], rest, m, MarkAfterSlash(rest, 0), ParseArgument(more, quoted, 0), ParseArgument(tail, quoted, m));
  }

  lemma {:induction false} ParseEscaped(arg: seq<Unit>, n: nat, tail: seq<Unit>, quoted: bool)
    requires Fits(arg, quoted)
    ensures Undone(arg, n, tail, quoted)
    decreases |arg|
  {
    hide Undone;
    if |arg| == 0 {
      UndoneNothing(n, tail, quoted);
    } else {
      var c, rest := arg[0], arg[1..];
      assert arg == [c] + rest;
      ParseEscaped(rest, Counted(c, n), tail, quoted);
      if c == BACKSLASH {
        UndoneSlash(rest, n, tail, quoted);
      } else if c == QUOTE {
        UndoneMark(rest, n, tail, quoted);
      } else {
        UndoneOther(c, rest, n, tail, quoted);
      }
    }
  }

  /** The run is made of the backslashes at the end. */
  lemma {:induction false} RunIsTheEnd(arg: seq<Unit>, n: nat)
    ensures forall i | 0 <= i < |arg| && |arg| - Run(arg, n) <= i :: arg[i] == BACKSLASH
    ensures |arg| > 0 ==> (Run(arg, n) == 0 <==> arg[|arg| - 1] != BACKSLASH)
    decreases |arg|
  {
    if |arg| > 0 {
      var m := Counted(arg[0], n);
      RunIsTheEnd(arg[1..], m);
      assert forall i | 0 < i < |arg| :: arg[i] == arg[1..][i - 1];
    }
  }

  /** What may follow an argument: the end, or the space before the next one. */
  predicate Ends(tail: seq<Unit>)
  {
    |tail| == 0 || tail[0] == SPACE
  }

  lemma ParseAtEnd(tail: seq<Unit>, m: nat)
    requires Ends(tail)
    ensures ParseArgument(tail, false, m) == Parsed(Slashes(m), tail)
    ensures ParseArgument(Slashes(m) + ([QUOTE] + tail), true, m) == Parsed(Slashes(m), tail)
  {
    ReadSlashes(m, [QUOTE] + tail, true, m);
    assert ([QUOTE] + tail)[1..] == tail && (m + m) / 2 == m;
    assert ParseArgument(tail, false, 0) == Parsed([], tail);
    assert ParseArgument([QUOTE] + tail, true, m + m) == Prepend(Slashes(m), ParseArgument(tail, false, 0));
    assert Slashes(m) + [] == Slashes(m);
  }

  lemma ParseAfterEscaped(arg: seq<Unit>, tail: seq<Unit>, end: seq<Unit>, quoted: bool)
    requires Fits(arg, quoted) && ParseArgument(tail, quoted, Run(arg, 0)) == Parsed(Slashes(Run(arg, 0)), end)
    ensures var r := ParseArgument(Escaped(arg, 0) + tail, quoted, 0);
            if MarkAfterSlash(arg, 0) then r.value != arg else r == Parsed(arg, end)
  {
    ParseEscaped(arg, 0, tail, quoted);
    RunIsTheEnd(arg, 0);
    var m := Run(arg, 0);
    assert Slashes(0) + arg == arg;
    hide ParseArgument, Escaped, Run, MarkAfterSlash;
    assert arg[..|arg| - m] + Slashes(m) == arg;
  }

  lemma OpenQuotes(inside: seq<Unit>)
    ensures ParseArgument([QUOTE] + inside, false, 0) == ParseArgument(inside, true, 0)
  {
    assert ([QUOTE] + inside)[1..] == inside;
    var r := ParseArgument(inside, true, 0);
    assert Slashes(0) + r.value == r.value;
  }

  /** A quoted argument parses back exactly when no quotation mark in it comes right behind a backslash. */
  lemma ParseQuoted(arg: seq<Unit>, tail: seq<Unit>)
    requires Ends(tail)
    ensures var r := ParseArgument(Quoted(arg) + tail, false, 0);
            if MarkAfterSlash(arg, 0) then r.value != arg else r == Parsed(arg, tail)
  {
    hide ParseArgument, Escaped, Run, MarkAfterSlash, Slashes;
    var m := Run(arg, 0);
    ParseAtEnd(tail, m);
    if NeedsQuotes(arg) {
      var inside := Escaped(arg, 0) + (Slashes(m) + ([QUOTE] + tail));
      OpenQuotes(inside);
      assert Quoted(arg) + tail == [QUOTE] + inside;
      ParseAfterEscaped(arg, Slashes(m) + ([QUOTE] + tail), tail, true);
    } else {
      ParseAfterEscaped(arg, tail, tail, false);
    }
  }

  // ---- the arguments -----------------------------------------------------------------------------------------

  /** No quotation mark right behind a backslash. */
  predicate GoodArgument(arg: seq<Unit>)
  {
    !exists i | 0 < i < |arg| :: arg[i] == QUOTE && arg[i - 1] == BACKSLASH
  }

  lemma ArgumentsEnd(args: seq<seq<Unit>>)
    ensures Ends(Arguments(args))
  {
  }

  lemma QuotedStarts(arg: seq<Unit>)
    ensures |Quoted(arg)| > 0 && !IsBlank(Quoted(arg)[0])
  {
  }

  lemma ParseOneMore(s: seq<Unit>)
    requires |s| > 0 && !IsBlank(s[0])
    ensures var r := ParseArgument(s, false, 0); ParseArguments([SPACE] + s) == [r.value] + ParseArguments(r.rest)
  {
    hide ParseArgument;
    assert ([SPACE] + s)[1..] == s;
    assert SkipBlanks([SPACE] + s) == s;
  }

  lemma SameList<T>(a: T, s: seq<T>, b: T, t: seq<T>)
    ensures [a] + s == [b] + t <==> a == b && s == t
  {
    assert ([a] + s)[0] == a && ([a] + s)[1..] == s;
    assert ([b] + t)[0] == b && ([b] + t)[1..] == t;
  }

  ghost predicate AllGood(args: seq<seq<Unit>>)
  {
    forall i | 0 <= i < |args| :: GoodArgument(args[i])
  }

  lemma AllGoodStep(first: seq<Unit>, rest: seq<seq<Unit>>)
    ensures AllGood([first] + rest) <==> GoodArgument(first) && AllGood(rest)
  {
    hide GoodArgument;
    var args := [first] + rest;
    assert args[0] == first && forall i | 0 <= i < |rest| :: rest[i] == args[i + 1];
  }

  /** The arguments parse back exactly when every one of them is good. */
  lemma {:induction false} ParseArgumentsBack(args: seq<seq<Unit>>)
    ensures ParseArguments(Arguments(args)) == args <==> AllGood(args)
    decreases |args|
  {
    if |args| > 0 {
      var first, rest := args[0], args[1..];
      var s := Quoted(first) + Arguments(rest);
      assert Arguments(args) == [SPACE] + s;
      QuotedStarts(first);
      ArgumentsEnd(rest);
      MarkAfterSlashMeans(first, 0);
      hide ParseArguments, ParseArgument, Arguments, Quoted, MarkAfterSlash, AllGood;
      ParseOneMore(s);
      ParseQuoted(first, Arguments(rest));
      ParseArgumentsBack(rest);
      assert args == [first] + rest;
      AllGoodStep(first, rest);
      var r := ParseArgument(s, false, 0);
      SameList(r.value, ParseArguments(r.rest), first, rest);
    }
  }

  // ---- the program -------------------------------------------------------------------------------------------

  /** No quotation mark, and no backslash at the end of a name that is quoted. */
  predicate GoodProgram(program: seq<Unit>)
  {
    && QUOTE !in program
    && (NeedsQuotes(program) && |program| > 0 ==> program[|program| - 1] != BACKSLASH)
  }

  /** A quotation mark in the name comes back as the backslash in front of it; else the name comes back. */
  ghost predicate NameOutcome(program: seq<Unit>, n: nat, tail: seq<Unit>, quoted: bool)
  {
    Outcome(program, 0, QUOTE in program, ParseProgram(Escaped(program, n) + tail, quoted), ParseProgram(tail, quoted))
  }

  lemma NameOutcomeOther(c: Unit, rest: seq<Unit>, n: nat, tail: seq<Unit>, quoted: bool)
    requires c != QUOTE && (quoted || !IsBlank(c)) && NameOutcome(rest, Counted(c, n), tail, quoted)
    ensures NameOutcome([c] + rest, n, tail, quoted)
  {
    hide Outcome;
    FirstUnit(c, rest, n, tail);
    hide Escaped;
    var more := Escaped(rest, Counted(c, n)) + tail;
    assert ([c] + more)[1..] == more;
    assert ParseProgram([c] + more, quoted) == Prepend([c], ParseProgram(more, quoted));
    ShiftOutcome([c], rest, 0, QUOTE in rest, ParseProgram(more, quoted), ParseProgram(tail, quoted));
  }

  lemma NameOutcomeMark(rest: seq<Unit>, n: nat, tail: seq<Unit>, quoted: bool)
    ensures NameOutcome([QUOTE] + rest, n, tail, quoted)
  {
    FirstUnit(QUOTE, rest, n, tail);
    hide Escaped;
    var s := Escaped([QUOTE] + rest, n) + tail;
    assert s[0] == BACKSLASH;
    var r := ParseProgram(s, quoted);
    assert r.value[0] == BACKSLASH && ([QUOTE] + rest)[0] == QUOTE;
  }

  lemma {:induction false} ParseProgramEscaped(program: seq<Unit>, n: nat, tail: seq<Unit>, quoted: bool)
    requires Fits(program, quoted)
    ensures NameOutcome(program, n, tail, quoted)
    decreases |program|
  {
    if |program| == 0 {
      assert Escaped(program, n) + tail == tail;
      var r := ParseProgram(tail, quoted);
      assert [] + r.value == r.value;
    } else {
      hide NameOutcome;
      var c, rest := program[0], program[1..];
      assert program == [c] + rest;
      if c == QUOTE {
        NameOutcomeMark(rest, n, tail, quoted);
      } else {
        ParseProgramEscaped(rest, Counted(c, n), tail, quoted);
        NameOutcomeOther(c, rest, n, tail, quoted);
      }
    }
  }

  lemma {:induction false} ParseProgramEnd(m: nat, tail: seq<Unit>)
    requires Ends(tail)
    ensures ParseProgram(Slashes(m) + ([QUOTE] + tail), true) == Parsed(Slashes(m), tail)
    decreases m
  {
    if m == 0 {
      assert Slashes(0) + ([QUOTE] + tail) == [QUOTE] + tail && ([QUOTE] + tail)[1..] == tail;
    } else {
      var more := Slashes(m - 1) + ([QUOTE] + tail);
      assert Slashes(m) + ([QUOTE] + tail) == [BACKSLASH] + more && ([BACKSLASH] + more)[1..] == more;
      ParseProgramEnd(m - 1, tail);
      assert [BACKSLASH] + Slashes(m - 1) == Slashes(m);
    }
  }

  lemma ParseAfterName(program: seq<Unit>, tail: seq<Unit>, quoted: bool)
    requires Fits(program, quoted)
    ensures var r, end := ParseProgram(Escaped(program, 0) + tail, quoted), ParseProgram(tail, quoted);
            if QUOTE in program then r.value != program else r == Parsed(program + end.value, end.rest)
  {
    ParseProgramEscaped(program, 0, tail, quoted);
    hide ParseProgram, Escaped;
    assert program[..|program|] == program;
  }

  /** The program name parses back exactly when it is good, and then what follows it is left. */
  lemma ParseProgramQuoted(program: seq<Unit>, tail: seq<Unit>)
    requires Ends(tail)
    ensures var r := ParseProgram(Quoted(program) + tail, false);
            if GoodProgram(program) then r == Parsed(program, tail) else r.value != program
  {
    var m := Run(program, 0);
    RunIsTheEnd(program, 0);
    hide Escaped;
    if NeedsQuotes(program) {
      var end := Slashes(m) + ([QUOTE] + tail);
      var inside := Escaped(program, 0) + end;
      assert Quoted(program) + tail == [QUOTE] + inside && ([QUOTE] + inside)[1..] == inside;
      assert ParseProgram([QUOTE] + inside, false) == ParseProgram(inside, true);
      hide ParseProgram, Quoted;
      ParseAfterName(program, end, true);
      ParseProgramEnd(m, tail);
      assert |program + Slashes(m)| == |program| + m;
      assert m == 0 ==> program + Slashes(m) == program;
    } else {
      assert ParseProgram(tail, false) == Parsed([], tail);
      hide ParseProgram;
      ParseAfterName(program, tail, false);
      assert program + [] == program;
    }
  }

  // ---- NUL ---------------------------------------------------------------------------------------------------

  lemma {:induction false} UpToNulMeans(s: seq<Unit>)
    ensures NUL !in UpToNul(s) && (NUL !in s ==> UpToNul(s) == s)
  {
    if |s| > 0 {
      UpToNulMeans(s[1..]);
      assert s == [s[0]] + s[1..];
    }
  }

  lemma {:induction false} EscapedHasNoNul(arg: seq<Unit>, n: nat)
    requires NUL !in arg
    ensures NUL !in Escaped(arg, n)
    decreases |arg|
  {
    if |arg| > 0 {
      EscapedHasNoNul(arg[1..], Counted(arg[0], n));
    }
  }

  lemma {:induction false} ArgumentsHaveNoNul(args: seq<seq<Unit>>)
    requires forall i | 0 <= i < |args| :: NUL !in args[i]
    ensures NUL !in Arguments(args)
  {
    if |args| > 0 {
      EscapedHasNoNul(args[0], 0);
      ArgumentsHaveNoNul(args[1..]);
    }
  }

  lemma {:induction false} ParseArgumentHasNoNul(s: seq<Unit>, quoted: bool, n: nat)
    requires NUL !in s
    ensures var r := ParseArgument(s, quoted, n); NUL !in r.value && NUL !in r.rest
    decreases |s|
  {
    if |s| > 0 {
      if s[0] == BACKSLASH {
        ParseArgumentHasNoNul(s[1..], quoted, n + 1);
      } else if s[0] == QUOTE {
        ParseArgumentHasNoNul(s[1..], quoted, 0);
        ParseArgumentHasNoNul(s[1..], !quoted, 0);
        if |s| > 1 {
          ParseArgumentHasNoNul(s[2..], quoted, 0);
        }
      } else if !IsBlank(s[0]) || quoted {
        ParseArgumentHasNoNul(s[1..], quoted, 0);
      }
    }
  }

  lemma {:induction false} ParseProgramHasNoNul(s: seq<Unit>, quoted: bool)
    requires NUL !in s
    ensures var r := ParseProgram(s, quoted); NUL !in r.value && NUL !in r.rest
  {
    if |s| > 0 {
      ParseProgramHasNoNul(s[1..], !quoted);
      ParseProgramHasNoNul(s[1..], quoted);
    }
  }

  lemma {:induction false} SkipBlanksHasNoNul(s: seq<Unit>)
    requires NUL !in s
    ensures NUL !in SkipBlanks(s)
  {
    if |s| > 0 {
      SkipBlanksHasNoNul(s[1..]);
    }
  }

  lemma {:induction false} ParseArgumentsHaveNoNul(s: seq<Unit>)
    requires NUL !in s
    ensures forall i | 0 <= i < |ParseArguments(s)| :: NUL !in ParseArguments(s)[i]
    decreases |s|
  {
    var t := SkipBlanks(s);
    SkipBlanksHasNoNul(s);
    if |t| > 0 {
      ParseArgumentHasNoNul(t, false, 0);
      ParseArgumentsHaveNoNul(ParseArgument(t, false, 0).rest);
    }
  }

  // ---- the whole line ------------------------------------------------------------------------------------------

  ghost predicate NoNul(program: seq<Unit>, args: seq<seq<Unit>>)
  {
    NUL !in program && forall i | 0 <= i < |args| :: NUL !in args[i]
  }

  /**
   The process started with the command line finds exactly the program and arguments it was built from
   if and only if: none holds a NUL; no quotation mark in an argument comes right behind a backslash; the
   program has no quotation mark, and no backslash at its end when it has to be quoted.
   */
  lemma CommandLineRoundTrips(program: seq<Unit>, args: seq<seq<Unit>>)
    ensures Parse(UpToNul(CommandLine(program, args))) == [program] + args
            <==> NoNul(program, args) && GoodProgram(program) && AllGood(args)
  {
    var line := CommandLine(program, args);
    UpToNulMeans(line);
    if NoNul(program, args) {
      EscapedHasNoNul(program, 0);
      ArgumentsHaveNoNul(args);
      assert NUL !in line;
      CleanLineRoundTrips(program, args);
    } else {
      LineWithNulIsLost(UpToNul(line), program, args);
    }
  }

  lemma CleanLineRoundTrips(program: seq<Unit>, args: seq<seq<Unit>>)
    ensures Parse(CommandLine(program, args)) == [program] + args
            <==> GoodProgram(program) && AllGood(args)
  {
    ArgumentsEnd(args);
    ParseProgramQuoted(program, Arguments(args));
    ParseArgumentsBack(args);
    hide ParseProgram, ParseArguments, Quoted, Arguments, GoodProgram, AllGood;
    var r := ParseProgram(CommandLine(program, args), false);
    SameList(r.value, ParseArguments(r.rest), program, args);
  }

  lemma LineWithNulIsLost(line: seq<Unit>, program: seq<Unit>, args: seq<seq<Unit>>)
    requires NUL !in line && !NoNul(program, args)
    ensures Parse(line) != [program] + args
  {
    ParseProgramHasNoNul(line, false);
    var r := ParseProgram(line, false);
    ParseArgumentsHaveNoNul(r.rest);
    hide ParseProgram, ParseArguments;
    SameList(r.value, ParseArguments(r.rest), program, args);
  }

  lemma BackslashMarkPushes()
    ensures Arguments([[BACKSLASH, QUOTE]]) == [SPACE] + (Slashes(4) + [QUOTE])
  {
    var arg: seq<Unit> := [BACKSLASH, QUOTE];
    assert arg[1..] == [QUOTE] && [QUOTE][1..] == [];
    assert Escaped([QUOTE], 1) == Slashes(3) + [QUOTE] + [];
    assert Escaped(arg, 0) == [BACKSLASH] + (Slashes(3) + [QUOTE]);
    assert !NeedsQuotes(arg);
    assert [arg][1..] == [];
    assert [SPACE] + Quoted(arg) + [] == [SPACE] + Quoted(arg);
    assert Slashes(4) + [QUOTE] == [BACKSLASH] + (Slashes(3) + [QUOTE]);
  }

  lemma BackslashMarkParses()
    ensures ParseArguments([SPACE] + (Slashes(4) + [QUOTE])) == [[BACKSLASH, BACKSLASH]]
  {
    var s := Slashes(4) + [QUOTE];
    assert s[0] == BACKSLASH;
    ParseOneMore(s);
    ReadSlashes(4, [QUOTE], false, 0);
    assert [QUOTE][1..] == [] && Slashes(2) + Slashes(0) == [BACKSLASH, BACKSLASH];
    assert ParseArgument([QUOTE], false, 4) == Prepend(Slashes(2), ParseArgument([], true, 0));
    assert ParseArgument(s, false, 0) == Parsed([BACKSLASH, BACKSLASH], []);
    assert ParseArguments([]) == [];
  }

  /** An argument of one backslash and a quotation mark comes back as two backslashes. */
  lemma BackslashMarkIsLost(program: seq<Unit>)
    requires GoodProgram(program) && NUL !in program
    ensures Parse(UpToNul(CommandLine(program, [[BACKSLASH, QUOTE]]))) == [program, [BACKSLASH, BACKSLASH]]
  {
    var args: seq<seq<Unit>> := [[BACKSLASH, QUOTE]];
    EscapedHasNoNul(program, 0);
    ArgumentsHaveNoNul(args);
    UpToNulMeans(CommandLine(program, args));
    ArgumentsEnd(args);
    ParseProgramQuoted(program, Arguments(args));
    BackslashMarkPushes();
    BackslashMarkParses();
    hide Escaped, ParseProgram, ParseArguments, Arguments, UpToNul, GoodProgram, Slashes;
  }

  // ---- the loops of the source -----------------------------------------------------------------------------------

  class WideString {
    var units: seq<Unit>

    constructor ()
      ensures units == []
    {
      units := [];
    }
  }

  lemma {:induction false} EscapedAppend(a: seq<Unit>, b: seq<Unit>, n: nat)
    ensures Escaped(a + b, n) == Escaped(a, n) + Escaped(b, Run(a, n)) && Run(a + b, n) == Run(b, Run(a, n))
    decreases |a|
  {
    if |a| == 0 {
      assert a + b == b;
    } else {
      var c, rest := a[0], a[1..];
      assert a == [c] + rest && a + b == [c] + (rest + b);
      EscapedAppend(rest, b, Counted(c, n));
      FirstUnit(c, rest, n, []);
      FirstUnit(c, rest + b, n, []);
      hide Escaped, Run, Pushed, MarkAfterSlash;
    }
  }

  lemma EscapedSnoc(arg: seq<Unit>, i: nat)
    requires i < |arg|
    ensures var m := Run(arg[..i], 0);
            Escaped(arg[..i + 1], 0) == Escaped(arg[..i], 0) + Pushed(arg[i], m) && Run(arg[..i + 1], 0) == Counted(arg[i], m)
  {
    var c, m := arg[i], Run(arg[..i], 0);
    assert arg[..i + 1] == arg[..i] + [c];
    EscapedAppend(arg[..i], [c], 0);
    assert [c][1..] == [];
    assert Escaped([c], m) == Pushed(c, m) + [];
  }

  method AppendEscaped(cmd: WideString, arg: seq<Unit>) returns (backslashes: nat)
    modifies cmd
    ensures cmd.units == old(cmd.units) + Escaped(arg, 0) && backslashes == Run(arg, 0)
  {
    backslashes := 0;
    var i := 0;
    assert arg[..0] == [] && cmd.units + [] == cmd.units;
    while i < |arg|
      invariant i <= |arg| && backslashes == Run(arg[..i], 0)
      invariant cmd.units == old(cmd.units) + Escaped(arg[..i], 0)
    {
      EscapedSnoc(arg, i);
      hide Escaped, Run;
      var c, n := arg[i], backslashes;
      ghost var before := cmd.units;
      if c == BACKSLASH {
        backslashes := backslashes + 1;
      } else {
        if c == QUOTE {
          cmd.units := cmd.units + Slashes(backslashes * 2 + 1);
        }
        backslashes := 0;
      }
      cmd.units := cmd.units + [c];
      assert cmd.units == before + Pushed(c, n);
      hide Pushed;
      assert cmd.units == old(cmd.units) + (Escaped(arg[..i], 0) + Pushed(c, n));
      i := i + 1;
    }
    assert arg[..|arg|] == arg;
  }

  method AppendQuoted(cmd: WideString, arg: seq<Unit>)
    modifies cmd
    ensures cmd.units == old(cmd.units) + Quoted(arg)
  {
    hide Escaped, Run, Slashes;
    ghost var before := cmd.units;
    var quote := |arg| == 0 || exists i | 0 <= i < |arg| :: IsBlank(arg[i]);
    if quote {
      cmd.units := cmd.units + [QUOTE];
    }
    var backslashes := AppendEscaped(cmd, arg);
    if quote {
      cmd.units := cmd.units + Slashes(backslashes);
      cmd.units := cmd.units + [QUOTE];
      assert cmd.units == before + ([QUOTE] + Escaped(arg, 0) + Slashes(backslashes) + [QUOTE]);
    }
  }

  lemma {:induction false} ArgumentsSnoc(args: seq<seq<Unit>>, last: seq<Unit>)
    ensures Arguments(args + [last]) == Arguments(args) + ([SPACE] + Quoted(last))
  {
    hide Quoted;
    if |args| == 0 {
      assert args + [last] == [last] && [last][1..] == [];
      assert Arguments([last]) == [SPACE] + Quoted(last) + [];
    } else {
      ArgumentsSnoc(args[1..], last);
      assert (args + [last])[1..] == args[1..] + [last];
      var front := [SPACE] + Quoted(args[0]);
      assert Arguments(args + [last]) == front + Arguments(args[1..] + [last]);
      assert Arguments(args) == front + Arguments(args[1..]);
      hide Arguments;
    }
  }

  lemma LineSnoc(program: seq<Unit>, args: seq<seq<Unit>>, i: nat)
    requires i < |args|
    ensures CommandLine(program, args[..i + 1]) == CommandLine(program, args[..i]) + [SPACE] + Quoted(args[i])
  {
    hide Quoted, Arguments;
    ArgumentsSnoc(args[..i], args[i]);
    assert args[..i + 1] == args[..i] + [args[i]];
    var head, tail := Quoted(program), Quoted(args[i]);
    assert head + (Arguments(args[..i]) + ([SPACE] + tail)) == head + Arguments(args[..i]) + [SPACE] + tail;
  }

  lemma LineOfProgram(program: seq<Unit>)
    ensures CommandLine(program, []) == Quoted(program)
  {
    hide Quoted;
    assert Quoted(program) + [] == Quoted(program);
  }

  method BuildCommandLine(program: seq<Unit>, args: seq<seq<Unit>>) returns (cmd: WideString)
    ensures fresh(cmd) && cmd.units == CommandLine(program, args)
  {
    hide Quoted, CommandLine;
    cmd := new WideString();
    AppendQuoted(cmd, program);
    assert [] + Quoted(program) == Quoted(program);
    LineOfProgram(program);
    var i := 0;
    assert args[..0] == [];
    while i < |args|
      invariant i <= |args| && fresh(cmd)
      invariant cmd.units == CommandLine(program, args[..i])
    {
      LineSnoc(program, args, i);
      cmd.units := cmd.units + [SPACE];
      AppendQuoted(cmd, args[i]);
      i := i + 1;
    }
    assert args[..|args|] == args;
  }
}
