/** The assembler: the four sections of the generated C file (`c_headers`,
    `c_usage`, `c_parse_args`, `c_main`) and the file itself (`Spec::gen`).

    Each section is a function of the spec built with `ConcatMap`, and next to
    it stands a method that builds it the way the source does, pushing one
    fragment per item in a loop; each method is proved to compute its
    function. The lemmas then say what the text carries: every item's pieces
    in list order, each C variable declared before it is used, and lists that
    read back as exactly the spec's names and variables. */
module Assembler {
  import opened SpecModel
  import opened Text
  import opened Emitter

  // ---------------------------------------------------------------------
  // Headers

  /** `Spec::c_headers`: the three `#include` lines, with no newline after the last. */
  function CHeaders(): string
  {
    "#include<stdlib.h>\n#include<stdio.h>\n#include<string.h>"
  }

  // ---------------------------------------------------------------------
  // Usage

  /** What the usage line says about positional arguments: still a placeholder. */
  const PositionalUsage: string := "[TODO ...]"

  const HelpOption: string := "  -h  --help\n        print this usage and exit\n"

  /** The text before the option list: the function head, and the `printf`
      whose second `%s` receives the list as a string continued over lines. */
  const UsageOpen: string :=
    "static void usage(const char *progname) {\n\tprintf(\"usage: %s [options] " + PositionalUsage + "\\n%s\", progname, \"\\\n"

  const UsageClose: string := "\");\n}\n"

  /** One long option as listed: two spaces, `--` and the name. */
  function LongOption(x: string): string
  {
    "  --" + x
  }

  /** The long name, then every alias, in order. */
  function LongNames(n: NPItem): string
  {
    LongOption(n.name) + ConcatMap(LongOption, n.aliases.GetOr([]))
  }

  /** The short-name column: `  -c` when there is one, five spaces otherwise. */
  function ShortColumn(short: Option<string>): string
  {
    if short.Some? then "  -" + short.value else "     "
  }

  /** The help text on its own line, indented eight spaces, if there is one. */
  function HelpSuffix(help: Option<string>): string
  {
    if help.Some? then "\n        " + help.value else ""
  }

  /** The usage entry of one named item. */
  function UsageEntry(n: NPItem): string
  {
    ShortColumn(n.short) + LongNames(n) + HelpSuffix(n.help) + "\n"
  }

  /** `Spec::c_usage`. Positional items are not listed. */
  function UsageText(s: Spec): string
  {
    UsageOpen + (HelpOption + ConcatMap(UsageEntry, s.nonPositional)) + UsageClose
  }

  /** One usage entry, built as the closure in `c_usage` builds it. */
  method Entry(n: NPItem) returns (e: string)
    ensures e == UsageEntry(n)
  {
    var long := "  --";
    long := long + n.name;
    if n.aliases.Some? {
      var aliases := n.aliases.value;
      for j := 0 to |aliases|
        invariant long == LongOption(n.name) + ConcatMap(LongOption, aliases[..j])
      {
        Assoc(long, "  --", aliases[j]);
        long := long + "  --";
        long := long + aliases[j];
        ConcatMapTake(LongOption, aliases, j);
        Assoc(LongOption(n.name), ConcatMap(LongOption, aliases[..j]), LongOption(aliases[j]));
      }
      assert aliases[..|aliases|] == aliases;
    } else {
      assert long == LongOption(n.name) + ConcatMap(LongOption, []);
    }
    var help := "";
    if n.help.Some? {
      help := "\n        ";
      help := help + n.help.value;
    }
    if n.short.Some? {
      e := "  -" + n.short.value + long + help + "\n";
    } else {
      e := "     " + long + help + "\n";
    }
  }

  /** `Spec::c_usage` as the source runs it. */
  method CUsage(s: Spec) returns (text: string)
    ensures text == UsageText(s)
  {
    var np := s.nonPositional;
    var help := HelpOption;
    for i := 0 to |np|
      invariant help == HelpOption + ConcatMap(UsageEntry, np[..i])
    {
      var e := Entry(np[i]);
      help := help + e;
      ConcatMapTake(UsageEntry, np, i);
      Assoc(HelpOption, ConcatMap(UsageEntry, np[..i]), e);
    }
    assert np[..|np|] == np;
    text := UsageOpen + help + UsageClose;
  }

  // ---------------------------------------------------------------------
  // parse_args

  const ParseOpen: string := "void parse_args(int argc, char **argv /* TODO */) {\n"
  const ArgCountLine: string := "\tint arg_count = 0;\n"
  const NamedLoopOpen: string := "\tfor (int i = 1; i < argc; i++) {\n"
  const PositionalLoopOpen: string := "\tfor (int i = arg_count; i < argc; i++) {\n"
  const LoopClose: string := "\t}\n"
  const FunctionClose: string := "}\n"

  /** The seen flags, declared false, and the token counter. */
  function FlagDecls(s: Spec): string
  {
    ParseOpen + ConcatMap(NPItemDeclParse, s.nonPositional) + ArgCountLine
  }

  /** The loop over the tokens, with one match fragment per named item. */
  function NamedLoop(s: Spec): string
  {
    NamedLoopOpen + ConcatMap(NPItemGen, s.nonPositional) + LoopClose
  }

  /** The loop meant for positional arguments; its body is empty. */
  function PositionalLoop(s: Spec): string
  {
    PositionalLoopOpen + ConcatMap(PItemGen, s.positional) + LoopClose
  }

  /** The checks after the loops: positional items first, then named items. */
  function PostLoops(s: Spec): string
  {
    ConcatMap(PItemPostLoop, s.positional) + ConcatMap(NPItemPostLoop, s.nonPositional)
  }

  /** `Spec::c_parse_args`. */
  function ParseArgsText(s: Spec): string
  {
    FlagDecls(s) + NamedLoop(s) + PositionalLoop(s) + PostLoops(s) + FunctionClose
  }

  /** `Spec::c_parse_args` as the source runs it, one loop per section. */
  method CParseArgs(s: Spec) returns (body: string)
    ensures body == ParseArgsText(s)
  {
    var p, np := s.positional, s.nonPositional;
    body := ParseOpen;
    for i := 0 to |np|
      invariant body == ParseOpen + ConcatMap(NPItemDeclParse, np[..i])
    {
      body := body + NPItemDeclParse(np[i]);
      ConcatMapTake(NPItemDeclParse, np, i);
      Assoc(ParseOpen, ConcatMap(NPItemDeclParse, np[..i]), NPItemDeclParse(np[i]));
    }
    assert np[..|np|] == np;
    body := body + ArgCountLine;
    assert body == FlagDecls(s);

    var loop := NamedLoopOpen;
    for i := 0 to |np|
      invariant loop == NamedLoopOpen + ConcatMap(NPItemGen, np[..i])
    {
      var frag := Gen(np[i]);
      loop := loop + frag;
      ConcatMapTake(NPItemGen, np, i);
      Assoc(NamedLoopOpen, ConcatMap(NPItemGen, np[..i]), frag);
    }
    loop := loop + LoopClose;
    body := body + loop;

    var positionalLoop := PositionalLoopOpen;
    for i := 0 to |p|
      invariant positionalLoop == PositionalLoopOpen + ConcatMap(PItemGen, p[..i])
    {
      positionalLoop := positionalLoop + PItemGen(p[i]);
      ConcatMapTake(PItemGen, p, i);
      Assoc(PositionalLoopOpen, ConcatMap(PItemGen, p[..i]), PItemGen(p[i]));
    }
    assert p[..|p|] == p;
    positionalLoop := positionalLoop + LoopClose;
    body := body + positionalLoop;

    var post := "";
    for i := 0 to |p|
      invariant post == ConcatMap(PItemPostLoop, p[..i])
    {
      post := post + PItemPostLoop(p[i]);
      ConcatMapTake(PItemPostLoop, p, i);
    }
    var namedPost := "";
    for i := 0 to |np|
      invariant namedPost == ConcatMap(NPItemPostLoop, np[..i])
    {
      var frag := PostLoop(np[i]);
      namedPost := namedPost + frag;
      ConcatMapTake(NPItemPostLoop, np, i);
    }
    body := body + (post + namedPost);
    body := body + FunctionClose;
  }

  // ---------------------------------------------------------------------
  // main

  const MainOpen: string := "int main(int argc, char **argv) {\n"
  const CallOpen: string := "\n\tparse_args(argc, argv"
  const CallClose: string := ");\n\n"
  const MainTail: string := "\t/* TODO: call your code here */\n"

  /** The address of a variable, as one more argument of the call. */
  function AddressArg(cVar: string): string
  {
    ", &" + cVar
  }

  function PItemArg(p: PItem): string
  {
    AddressArg(p.cVar)
  }

  function NPItemArg(n: NPItem): string
  {
    AddressArg(n.cVar)
  }

  /** One declaration per item: positional items first, then named items. */
  function MainDecls(s: Spec): string
  {
    ConcatMap(PItemDecl, s.positional) + ConcatMap(NPItemDeclMain, s.nonPositional)
  }

  /** The call of `parse_args` with the address of every variable, in the same order. */
  function CallText(s: Spec): string
  {
    CallOpen + (ConcatMap(PItemArg, s.positional) + ConcatMap(NPItemArg, s.nonPositional)) + CallClose
  }

  /** `Spec::c_main`. */
  function MainText(s: Spec): string
  {
    MainOpen + MainDecls(s) + CallText(s) + MainTail + FunctionClose
  }

  /** `Spec::c_main` as the source runs it. */
  method CMain(s: Spec) returns (main: string)
    ensures main == MainText(s)
  {
    var p, np := s.positional, s.nonPositional;
    var decls := "";
    for i := 0 to |p|
      invariant decls == ConcatMap(PItemDecl, p[..i])
    {
      decls := decls + PItemDecl(p[i]);
      ConcatMapTake(PItemDecl, p, i);
    }
    assert p[..|p|] == p;
    var namedDecls := "";
    for i := 0 to |np|
      invariant namedDecls == ConcatMap(NPItemDeclMain, np[..i])
    {
      namedDecls := namedDecls + NPItemDeclMain(np[i]);
      ConcatMapTake(NPItemDeclMain, np, i);
    }
    assert np[..|np|] == np;
    main := MainOpen + (decls + namedDecls);

    var args := "";
    for i := 0 to |p|
      invariant args == ConcatMap(PItemArg, p[..i])
    {
      args := args + ", &" + p[i].cVar;
      ConcatMapTake(PItemArg, p, i);
      Assoc(ConcatMap(PItemArg, p[..i]), ", &", p[i].cVar);
    }
    var namedArgs := "";
    for i := 0 to |np|
      invariant namedArgs == ConcatMap(NPItemArg, np[..i])
    {
      namedArgs := namedArgs + ", &" + np[i].cVar;
      ConcatMapTake(NPItemArg, np, i);
      Assoc(ConcatMap(NPItemArg, np[..i]), ", &", np[i].cVar);
    }
    main := main + (CallOpen + (args + namedArgs) + CallClose);
    main := main + MainTail;
    main := main + FunctionClose;
  }

  // ---------------------------------------------------------------------
  // The whole file

  /** `Spec::gen`: headers, a blank line, usage, parse_args and main. */
  function Program(s: Spec): string
  {
    CHeaders() + "\n\n" + UsageText(s) + "\n" + ParseArgsText(s) + "\n" + MainText(s)
  }

  /** `Spec::gen` as the source runs it. */
  method SpecGen(s: Spec) returns (code: string)
    ensures code == Program(s)
  {
    var usage := CUsage(s);
    var body := CParseArgs(s);
    var main := CMain(s);
    code := CHeaders() + "\n\n" + usage + "\n" + body + "\n" + main;
  }

  /** Loading a raw spec and generating from it: the program of the loaded
      spec, or the first problem the sanity check reports. */
  function Generate(raw: RawSpec): (r: Result<string, ValidationError>)
    ensures r.Ok? <==> ValidRawSpec(raw)
    ensures r.Err? ==> FirstError(raw) == Some(r.error)
    ensures r.Ok? ==> exists s: Spec :: WellFormed(s) && Untyped(s) == raw && r.value == Program(s)
  {
    match LoadSpec(raw)
    case Err(e) => Err(e)
    case Ok(s) => Ok(Program(s))
  }
}
