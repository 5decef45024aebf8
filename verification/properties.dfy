/** Where things land in the generated file.

    The sections follow one another in the order the C compiler needs
    (`usage` before `parse_args`, which calls it; `parse_args` before `main`,
    which calls it); inside `parse_args` every seen flag is declared before any
    match fragment sets it and every match fragment comes before any check that
    tests a flag; and the per-item pieces keep the spec's order. */
module Properties {
  import opened SpecModel
  import opened Text
  import opened Emitter
  import opened Assembler

  lemma OccursSelf(x: string)
    ensures Occurs(x, x)
  {
    assert x[0..|x|] == x;
    assert OccursAt(x, x, 0);
  }

  // ---------------------------------------------------------------------
  // Lifting a position to the whole file

  /** Order inside the usage function is order in the file. */
  lemma InUsage(s: Spec, x: string, y: string)
    requires OccursBefore(UsageText(s), x, y)
    ensures OccursBefore(Program(s), x, y)
  {
    OccursBeforePrepend(CHeaders() + "\n\n", UsageText(s), x, y);
    OccursBeforeAppend(CHeaders() + "\n\n" + UsageText(s), "\n", x, y);
    OccursBeforeAppend(CHeaders() + "\n\n" + UsageText(s) + "\n", ParseArgsText(s), x, y);
    OccursBeforeAppend(CHeaders() + "\n\n" + UsageText(s) + "\n" + ParseArgsText(s), "\n", x, y);
    OccursBeforeAppend(CHeaders() + "\n\n" + UsageText(s) + "\n" + ParseArgsText(s) + "\n", MainText(s), x, y);
  }

  /** Order inside `parse_args` is order in the file. */
  lemma InParseArgs(s: Spec, x: string, y: string)
    requires OccursBefore(ParseArgsText(s), x, y)
    ensures OccursBefore(Program(s), x, y)
  {
    OccursBeforePrepend(CHeaders() + "\n\n" + UsageText(s) + "\n", ParseArgsText(s), x, y);
    OccursBeforeAppend(CHeaders() + "\n\n" + UsageText(s) + "\n" + ParseArgsText(s), "\n", x, y);
    OccursBeforeAppend(CHeaders() + "\n\n" + UsageText(s) + "\n" + ParseArgsText(s) + "\n", MainText(s), x, y);
  }

  /** Order inside the token loop is order in `parse_args`. */
  lemma InNamedLoop(s: Spec, x: string, y: string)
    requires OccursBefore(ConcatMap(NPItemGen, s.nonPositional), x, y)
    ensures OccursBefore(ParseArgsText(s), x, y)
  {
    var matches := ConcatMap(NPItemGen, s.nonPositional);
    OccursBeforePrepend(NamedLoopOpen, matches, x, y);
    OccursBeforeAppend(NamedLoopOpen + matches, LoopClose, x, y);
    OccursBeforePrepend(FlagDecls(s), NamedLoop(s), x, y);
    OccursBeforeAppend(FlagDecls(s) + NamedLoop(s), PositionalLoop(s), x, y);
    OccursBeforeAppend(FlagDecls(s) + NamedLoop(s) + PositionalLoop(s), PostLoops(s), x, y);
    OccursBeforeAppend(FlagDecls(s) + NamedLoop(s) + PositionalLoop(s) + PostLoops(s), FunctionClose, x, y);
  }

  /** Order among the checks after the loops is order in `parse_args`. */
  lemma InPostLoops(s: Spec, x: string, y: string)
    requires OccursBefore(ConcatMap(NPItemPostLoop, s.nonPositional), x, y)
    ensures OccursBefore(ParseArgsText(s), x, y)
  {
    OccursBeforePrepend(ConcatMap(PItemPostLoop, s.positional), ConcatMap(NPItemPostLoop, s.nonPositional), x, y);
    OccursBeforePrepend(FlagDecls(s) + NamedLoop(s) + PositionalLoop(s), PostLoops(s), x, y);
    OccursBeforeAppend(FlagDecls(s) + NamedLoop(s) + PositionalLoop(s) + PostLoops(s), FunctionClose, x, y);
  }

  // ---------------------------------------------------------------------
  // The layout of the file

  /** The file opens with the headers; `usage` is defined before `parse_args`,
      and `parse_args` before `main`. */
  lemma SectionsInOrder(s: Spec)
    ensures StartsWith(Program(s), CHeaders())
    ensures OccursBefore(Program(s), UsageText(s), ParseArgsText(s))
    ensures OccursBefore(Program(s), ParseArgsText(s), MainText(s))
  {
    var u, p, m := UsageText(s), ParseArgsText(s), MainText(s);
    var head := CHeaders() + "\n\n";
    OccursSelf(u);
    OccursSelf(p);
    OccursSelf(m);
    OccursPrepend(head, u, u);
    OccursAppend(head + u, "\n", u);
    OccursBeforeAcross(head + u + "\n", p, u, p);
    OccursBeforeAppend(head + u + "\n" + p, "\n", u, p);
    OccursBeforeAppend(head + u + "\n" + p + "\n", m, u, p);
    OccursPrepend(head + u + "\n", p, p);
    OccursAppend(head + u + "\n" + p, "\n", p);
    OccursBeforeAcross(head + u + "\n" + p + "\n", m, p, m);
    Assoc(CHeaders(), "\n\n", u);
    Assoc(CHeaders(), "\n\n" + u, "\n");
    Assoc(CHeaders(), "\n\n" + u + "\n", p);
    Assoc(CHeaders(), "\n\n" + u + "\n" + p, "\n");
    Assoc(CHeaders(), "\n\n" + u + "\n" + p + "\n", m);
    ConcatStartsWith(CHeaders(), "\n\n" + u + "\n" + p + "\n" + m);
  }

  // ---------------------------------------------------------------------
  // The order of the named items

  /** The usage text lists the named items in spec order. */
  lemma UsageEntriesInOrder(s: Spec, i: nat, j: nat)
    requires i < j < |s.nonPositional|
    ensures OccursBefore(Program(s), UsageEntry(s.nonPositional[i]), UsageEntry(s.nonPositional[j]))
  {
    var x, y := UsageEntry(s.nonPositional[i]), UsageEntry(s.nonPositional[j]);
    var entries := ConcatMap(UsageEntry, s.nonPositional);
    ConcatMapInOrder(UsageEntry, s.nonPositional, i, j);
    OccursBeforePrepend(HelpOption, entries, x, y);
    OccursBeforePrepend(UsageOpen, HelpOption + entries, x, y);
    OccursBeforeAppend(UsageOpen + (HelpOption + entries), UsageClose, x, y);
    InUsage(s, x, y);
  }

  /** The token loop tries the named items in spec order. */
  lemma MatchesInOrder(s: Spec, i: nat, j: nat)
    requires i < j < |s.nonPositional|
    ensures OccursBefore(Program(s), NPItemGen(s.nonPositional[i]), NPItemGen(s.nonPositional[j]))
  {
    var x, y := NPItemGen(s.nonPositional[i]), NPItemGen(s.nonPositional[j]);
    ConcatMapInOrder(NPItemGen, s.nonPositional, i, j);
    InNamedLoop(s, x, y);
    InParseArgs(s, x, y);
  }

  /** The checks after the loops come in spec order. */
  lemma PostLoopsInOrder(s: Spec, i: nat, j: nat)
    requires i < j < |s.nonPositional|
    ensures OccursBefore(Program(s), NPItemPostLoop(s.nonPositional[i]), NPItemPostLoop(s.nonPositional[j]))
  {
    var x, y := NPItemPostLoop(s.nonPositional[i]), NPItemPostLoop(s.nonPositional[j]);
    ConcatMapInOrder(NPItemPostLoop, s.nonPositional, i, j);
    InPostLoops(s, x, y);
    InParseArgs(s, x, y);
  }

  // ---------------------------------------------------------------------
  // Declared before use

  /** In `parse_args`, the flag of any named item is declared before the
      match fragment of any named item, and every match fragment lies before
      every check after the loop. */
  lemma FlagsDeclaredBeforeUse(s: Spec, i: nat, j: nat)
    requires i < |s.nonPositional| && j < |s.nonPositional|
    ensures OccursBefore(ParseArgsText(s), NPItemDeclParse(s.nonPositional[i]), NPItemGen(s.nonPositional[j]))
    ensures OccursBefore(ParseArgsText(s), NPItemGen(s.nonPositional[i]), NPItemPostLoop(s.nonPositional[j]))
  {
    var np := s.nonPositional;
    var decl, gen, post := NPItemDeclParse(np[i]), NPItemGen(np[i]), NPItemPostLoop(np[j]);
    var gen2 := NPItemGen(np[j]);
    var flags, matches := ConcatMap(NPItemDeclParse, np), ConcatMap(NPItemGen, np);

    ConcatMapOccurs(NPItemDeclParse, np, i);
    OccursPrepend(ParseOpen, flags, decl);
    OccursAppend(ParseOpen + flags, ArgCountLine, decl);
    ConcatMapOccurs(NPItemGen, np, j);
    OccursPrepend(NamedLoopOpen, matches, gen2);
    OccursAppend(NamedLoopOpen + matches, LoopClose, gen2);
    OccursBeforeAcross(FlagDecls(s), NamedLoop(s), decl, gen2);
    OccursBeforeAppend(FlagDecls(s) + NamedLoop(s), PositionalLoop(s), decl, gen2);
    OccursBeforeAppend(FlagDecls(s) + NamedLoop(s) + PositionalLoop(s), PostLoops(s), decl, gen2);
    OccursBeforeAppend(FlagDecls(s) + NamedLoop(s) + PositionalLoop(s) + PostLoops(s), FunctionClose, decl, gen2);

    ConcatMapOccurs(NPItemGen, np, i);
    OccursPrepend(NamedLoopOpen, matches, gen);
    OccursAppend(NamedLoopOpen + matches, LoopClose, gen);
    OccursPrepend(FlagDecls(s), NamedLoop(s), gen);
    OccursAppend(FlagDecls(s) + NamedLoop(s), PositionalLoop(s), gen);
    ConcatMapOccurs(NPItemPostLoop, np, j);
    OccursPrepend(ConcatMap(PItemPostLoop, s.positional), ConcatMap(NPItemPostLoop, np), post);
    OccursBeforeAcross(FlagDecls(s) + NamedLoop(s) + PositionalLoop(s), PostLoops(s), gen, post);
    OccursBeforeAppend(FlagDecls(s) + NamedLoop(s) + PositionalLoop(s) + PostLoops(s), FunctionClose, gen, post);
  }

  /** In `main`, every variable is declared before the call that passes its
      address. */
  lemma DeclaredBeforePassed(s: Spec)
    ensures OccursBefore(MainText(s), MainDecls(s), CallText(s))
  {
    OccursSelf(MainDecls(s));
    OccursSelf(CallText(s));
    OccursPrepend(MainOpen, MainDecls(s), MainDecls(s));
    OccursBeforeAcross(MainOpen + MainDecls(s), CallText(s), MainDecls(s), CallText(s));
    OccursBeforeAppend(MainOpen + MainDecls(s) + CallText(s), MainTail, MainDecls(s), CallText(s));
    OccursBeforeAppend(MainOpen + MainDecls(s) + CallText(s) + MainTail, FunctionClose, MainDecls(s), CallText(s));
  }

  // ---------------------------------------------------------------------
  // What positional items change

  /** Positional items leave `parse_args` and the usage text as they would be
      without them: they are declared and passed in `main` only. */
  lemma PositionalSilent(s: Spec)
    ensures ParseArgsText(s) == ParseArgsText(Spec([], s.nonPositional))
    ensures UsageText(s) == UsageText(Spec([], s.nonPositional))
  {
    var p := s.positional;
    ConcatMapSilent(PItemGen, p);
    ConcatMapSilent(PItemPostLoop, p);
    assert ConcatMap(PItemGen, []) == "" && ConcatMap(PItemPostLoop, []) == "";
  }

  /** Only the long name, the variable and the type of a named item reach the
      token loop: short names and aliases are listed in the usage text and
      nowhere matched. */
  lemma LoopIgnoresShortAndAliases(s: Spec, short: Option<string>, aliases: Option<seq<string>>, k: nat)
    requires k < |s.nonPositional|
    ensures NamedLoop(s) == NamedLoop(s.(nonPositional := s.nonPositional[k := s.nonPositional[k].(short := short, aliases := aliases)]))
  {
    var np := s.nonPositional;
    var np' := np[k := np[k].(short := short, aliases := aliases)];
    ConcatMapSplit(NPItemGen, np, k);
    ConcatMapSplit(NPItemGen, np', k);
    assert np[..k] == np'[..k] && np[k + 1..] == np'[k + 1..];
  }

  // ---------------------------------------------------------------------
  // A worked case

  /** A long name with a space is refused before any code is produced, and
      it is reported even when a later item is also wrong. */
  lemma SpaceInNameRefused()
    ensures Generate(RawSpec([], [RawNPItem("out", "char*", "out file", None, None, None, None, None),
                                  RawNPItem("n", "int64", "n", None, None, None, None, None)]))
            == Err(InvalidName("out file"))
  {
    var bad := RawNPItem("out", "char*", "out file", None, None, None, None, None);
    var worse := RawNPItem("n", "int64", "n", None, None, None, None, None);
    assert IsIdentifierStart('o') && IsIdentifierPart('u') && IsIdentifierPart('t');
    assert IsIdentifier("out");
    assert ' ' in "out file";
    assert CheckNPItem(bad) == Some(InvalidName("out file"));
    FirstSomeAt(CheckNPItem, [bad, worse], 0);
  }
}
