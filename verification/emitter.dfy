/** The per-argument emitter: the C fragments one item contributes to each
    section of the generated file (`NPItem::decl_main`, `decl_parse`, `gen`,
    `post_loop` and `PItem::decl`, `gen`, `post_loop`).

    Each fragment is a function of the item's own fields. Next to each one
    stands a reader that takes the fragment apart again; the round-trip lemmas
    show that the fragment carries exactly the fields it is meant to carry. */
module Emitter {
  import opened SpecModel
  import opened Text

  // ---------------------------------------------------------------------
  // Declarations

  /** `"\t<c_type> <c_var>;\n"`: one variable declared in `main`. */
  function DeclLine(typeName: string, cVar: string): string
  {
    "\t" + typeName + " " + cVar + ";\n"
  }

  /** `PItem::decl`. */
  function PItemDecl(p: PItem): string
  {
    DeclLine(CTypeName(p.cType), p.cVar)
  }

  /** `NPItem::decl_main`. */
  function NPItemDeclMain(n: NPItem): string
  {
    DeclLine(CTypeName(n.cType), n.cVar)
  }

  /** The C name of the seen flag of variable `cVar`. */
  function IssetFlag(cVar: string): string
  {
    cVar + "__isset"
  }

  /** `NPItem::decl_parse`: the seen flag, declared false in `parse_args`. */
  function NPItemDeclParse(n: NPItem): string
  {
    "\tbool " + IssetFlag(n.cVar) + " = false;\n"
  }

  // ---------------------------------------------------------------------
  // The match fragment of a named item

  const GuardOpen: string := "\t\tif (!strcmp(argv[i], \"--"
  const GuardClose: string := "\") && i+1<argc) {\n"

  /** The guard: the current token equals `--<name>` and a value follows. */
  function Guard(name: string): string
  {
    GuardOpen + name + GuardClose
  }

  /** What follows `*<c_var>` in the assignment: the token-to-value conversion. */
  function ConversionTail(t: CType): string
  {
    match t
    case Int32 => " = atoi(argv[++i]);\n"
    case CharPtr => " = argv[++i];\n"
    case Char => " = argv[++i][0];\n"
  }

  function Conversion(t: CType, cVar: string): string
  {
    "\t\t\t*" + cVar + ConversionTail(t)
  }

  /** The line that marks the flag as seen. */
  function IssetLine(cVar: string): string
  {
    "\t\t\t" + IssetFlag(cVar) + " = true;\n"
  }

  function MatchText(name: string, cVar: string, t: CType): string
  {
    Guard(name) + Conversion(t, cVar) + IssetLine(cVar) + "\t\t\targ_count += 2;\n" + "\t\t}\n"
  }

  /** `NPItem::gen`. Only the long name is compared: the short name and the
      aliases play no part in it. */
  function NPItemGen(n: NPItem): string
  {
    MatchText(n.name, n.cVar, n.cType)
  }

  /** `NPItem::gen` as the source runs it, pushing line after line. */
  method Gen(n: NPItem) returns (code: string)
    ensures code == NPItemGen(n)
  {
    code := "";
    EmptyConcat(Guard(n.name));
    code := code + Guard(n.name);
    match n.cType {
      case Int32 => code := code + ("\t\t\t*" + n.cVar + " = atoi(argv[++i]);\n");
      case CharPtr => code := code + ("\t\t\t*" + n.cVar + " = argv[++i];\n");
      case Char => code := code + ("\t\t\t*" + n.cVar + " = argv[++i][0];\n");
    }
    assert code == Guard(n.name) + Conversion(n.cType, n.cVar);
    code := code + IssetLine(n.cVar);
    code := code + "\t\t\targ_count += 2;\n";
    code := code + "\t\t}\n";
  }

  // ---------------------------------------------------------------------
  // The post-loop fragment of a named item

  /** The default as a C literal: integers bare, strings in double quotes,
      characters in single quotes. Nothing inside is escaped. */
  function DefaultLiteral(t: CType, d: string): string
  {
    match t
    case Int32 => d
    case CharPtr => "\"" + d + "\""
    case Char => "'" + d + "'"
  }

  const ExitBody: string := "\t\tusage(argv[0]);\n" + "\t\texit(1);\n"

  /** The assignment of a default literal to the variable. */
  function AssignLine(cVar: string, literal: string): string
  {
    "\t\t*" + cVar + " = " + literal + ";\n"
  }

  /** Inside the `if (!<c_var>__isset)` block: exit when required (a missing
      `required` is false), else assign the default if there is one, else
      nothing. */
  function PostLoopBody(n: NPItem): string
  {
    if n.required.GetOr(false) then ExitBody
    else if n.defaultValue.Some? then AssignLine(n.cVar, DefaultLiteral(n.cType, n.defaultValue.value))
    else ""
  }

  const PostOpen: string := "\tif (!"

  /** The opening of the block that tests the seen flag. */
  function PostHead(cVar: string): string
  {
    PostOpen + IssetFlag(cVar) + ") {\n"
  }

  /** `NPItem::post_loop`. */
  function NPItemPostLoop(n: NPItem): string
  {
    PostHead(n.cVar) + PostLoopBody(n) + "\t}\n"
  }

  /** `NPItem::post_loop` as the source runs it. */
  method PostLoop(n: NPItem) returns (code: string)
    ensures code == NPItemPostLoop(n)
  {
    code := "";
    EmptyConcat(PostHead(n.cVar));
    code := code + PostHead(n.cVar);
    if n.required.GetOr(false) {
      code := code + "\t\tusage(argv[0]);\n";
      code := code + "\t\texit(1);\n";
      Assoc(PostHead(n.cVar), "\t\tusage(argv[0]);\n", "\t\texit(1);\n");
    } else if n.defaultValue.Some? {
      var default := n.defaultValue.value;
      match n.cType {
        case Int32 => code := code + ("\t\t*" + n.cVar + " = " + default + ";\n");
        case CharPtr => code := code + ("\t\t*" + n.cVar + " = " + ("\"" + default + "\"") + ";\n");
        case Char => code := code + ("\t\t*" + n.cVar + " = " + ("'" + default + "'") + ";\n");
      }
    }
    code := code + "\t}\n";
  }

  // ---------------------------------------------------------------------
  // Positional items

  /** `PItem::gen`: positional items are never bound in the scanning loop. */
  function PItemGen(p: PItem): string
  {
    ""
  }

  /** `PItem::post_loop`: nor checked after it. */
  function PItemPostLoop(p: PItem): string
  {
    ""
  }

  // ---------------------------------------------------------------------
  // Reading fragments back

  /** Takes one declaration line off the front of `s`: its type, its
      variable, and what follows the line. */
  function ReadDecl(s: string): (r: Option<(string, string, string)>)
    ensures r.Some? ==> s == DeclLine(r.value.0, r.value.1) + r.value.2
  {
    if !StartsWith(s, "\t") then None
    else
      var afterTab := s[1..];
      var t := UpTo(afterTab, ' ');
      var r1 := afterTab[|t|..];
      if !StartsWith(r1, " ") then None
      else
        var afterSpace := r1[1..];
        var v := UpTo(afterSpace, ';');
        var r2 := afterSpace[|v|..];
        if !StartsWith(r2, ";\n") then None
        else
          StartsWithSplit(s, "\t");
          StartsWithSplit(afterTab, t);
          StartsWithSplit(r1, " ");
          StartsWithSplit(afterSpace, v);
          StartsWithSplit(r2, ";\n");
          Nest6("\t", t, " ", v, ";\n", r2[2..]);
          Some((t, v, r2[2..]))
  }

  /** A declaration line of a space-free type and a `;`-free variable reads
      back as that type and that variable, whatever follows it. */
  lemma DeclRoundTrip(typeName: string, cVar: string, rest: string)
    requires ' ' !in typeName && ';' !in cVar
    ensures ReadDecl(DeclLine(typeName, cVar) + rest) == Some((typeName, cVar, rest))
  {
    var afterSpace := cVar + (";\n" + rest);
    var r1 := " " + afterSpace;
    var afterTab := typeName + r1;
    Nest6("\t", typeName, " ", cVar, ";\n", rest);
    ConcatStartsWith("\t", afterTab);
    UpToStops(typeName, r1, ' ');
    ConcatStartsWith(typeName, r1);
    ConcatStartsWith(" ", afterSpace);
    UpToStops(cVar, ";\n" + rest, ';');
    ConcatStartsWith(cVar, ";\n" + rest);
    ConcatStartsWith(";\n", rest);
  }

  /** Takes one seen-flag declaration off the front of `s`: the variable
      whose flag it is, and what follows the line. */
  function ReadDeclParse(s: string): (r: Option<(string, string)>)
    ensures r.Some? ==> s == "\tbool " + IssetFlag(r.value.0) + " = false;\n" + r.value.1
  {
    if !StartsWith(s, "\tbool ") then None
    else
      var afterBool := s[6..];
      var w := UpTo(afterBool, ' ');
      var r1 := afterBool[|w|..];
      if |w| < 7 || w[|w| - 7..] != "__isset" || !StartsWith(r1, " = false;\n") then None
      else
        var v := w[..|w| - 7];
        StartsWithSplit(s, "\tbool ");
        StartsWithSplit(afterBool, w);
        StartsWithSplit(r1, " = false;\n");
        assert w == v + "__isset";
        Assoc("\tbool " + IssetFlag(v), " = false;\n", r1[10..]);
        Assoc("\tbool ", IssetFlag(v), " = false;\n" + r1[10..]);
        Some((v, r1[10..]))
  }

  lemma DeclParseRoundTrip(n: NPItem, rest: string)
    requires ' ' !in n.cVar
    ensures ReadDeclParse(NPItemDeclParse(n) + rest) == Some((n.cVar, rest))
  {
    var w := IssetFlag(n.cVar);
    var r1 := " = false;\n" + rest;
    Assoc("\tbool " + w, " = false;\n", rest);
    Assoc("\tbool ", w, r1);
    ConcatStartsWith("\tbool ", w + r1);
    UpToStops(w, r1, ' ');
    ConcatStartsWith(w, r1);
    ConcatStartsWith(" = false;\n", rest);
    assert w[..|w| - 7] == n.cVar;
  }

  const GuardThen: string := " && i+1<argc) {\n"
  const ConversionOpen: string := "\t\t\t*"

  lemma GuardCloseSplit()
    ensures GuardClose == "\")" + GuardThen
  {
  }

  /** Reads the long name and the assigned variable off a match fragment. */
  function ReadMatchHead(frag: string): Option<(string, string)>
  {
    if !StartsWith(frag, GuardOpen) then None
    else
      var afterOpen := frag[|GuardOpen|..];
      var w := UpTo(afterOpen, ' ');
      var afterName := afterOpen[|w|..];
      if |w| < 2 || !StartsWith(afterName, GuardThen) then None
      else
        var afterGuard := afterName[|GuardThen|..];
        if !StartsWith(afterGuard, ConversionOpen) then None
        else Some((w[..|w| - 2], UpTo(afterGuard[|ConversionOpen|..], ' ')))
  }

  /** Reads a match fragment back into the long name it compares, the
      variable it assigns, and the type whose conversion it uses.
      `ReadMatchHead` does the reading; the type is then found by rebuilding
      the fragment for each of the three types, which is what makes the
      `ensures` hold. That the decoder recovers every fragment is
      `MatchRoundTrip`. */
  function DecodeMatch(frag: string): (r: Option<(string, string, CType)>)
    ensures r.Some? ==> frag == MatchText(r.value.0, r.value.1, r.value.2)
  {
    match ReadMatchHead(frag)
    case None => None
    case Some((name, v)) =>
      if frag == MatchText(name, v, Int32) then Some((name, v, Int32))
      else if frag == MatchText(name, v, CharPtr) then Some((name, v, CharPtr))
      else if frag == MatchText(name, v, Char) then Some((name, v, Char))
      else None
  }

  /** The three conversions differ in length, so a fragment determines its type. */
  lemma MatchTextTypeInjective(name: string, cVar: string, t: CType, u: CType)
    requires MatchText(name, cVar, t) == MatchText(name, cVar, u)
    ensures t == u
  {
    var fixed := |Guard(name)| + |ConversionOpen| + |cVar| + |IssetLine(cVar)| + |"\t\t\targ_count += 2;\n"| + |"\t\t}\n"|;
    assert |MatchText(name, cVar, t)| == fixed + |ConversionTail(t)|;
    assert |MatchText(name, cVar, u)| == fixed + |ConversionTail(u)|;
  }

  /** Everything of a match fragment after the assigned variable. */
  function MatchRest(cVar: string, t: CType): string
  {
    ConversionTail(t) + IssetLine(cVar) + "\t\t\targ_count += 2;\n" + "\t\t}\n"
  }

  /** The match fragment, regrouped the way a reader meets its pieces. */
  lemma MatchTextNested(name: string, cVar: string, t: CType)
    ensures MatchText(name, cVar, t) ==
            GuardOpen + ((name + "\")") + (GuardThen + (ConversionOpen + (cVar + MatchRest(cVar, t)))))
  {
    var i, a, e := IssetLine(cVar), "\t\t\targ_count += 2;\n", "\t\t}\n";
    var ct := ConversionTail(t);
    GuardCloseSplit();
    Assoc(Guard(name) + Conversion(t, cVar) + i, a, e);
    Assoc(Guard(name) + Conversion(t, cVar), i, a + e);
    Assoc(Guard(name), Conversion(t, cVar), i + (a + e));
    Assoc(ConversionOpen + cVar, ct, i + (a + e));
    Assoc(ConversionOpen, cVar, ct + (i + (a + e)));
    Assoc(ct, i, a + e);
    Assoc(ct + i, a, e);
    Assoc(GuardOpen + name, GuardClose, ConversionOpen + (cVar + MatchRest(cVar, t)));
    Assoc(GuardOpen, name, GuardClose + (ConversionOpen + (cVar + MatchRest(cVar, t))));
    Assoc("\")", GuardThen, ConversionOpen + (cVar + MatchRest(cVar, t)));
    Assoc(name, "\")", GuardThen + (ConversionOpen + (cVar + MatchRest(cVar, t))));
  }

  lemma MatchHeadRoundTrip(name: string, cVar: string, t: CType)
    requires ' ' !in name && ' ' !in cVar
    ensures ReadMatchHead(MatchText(name, cVar, t)) == Some((name, cVar))
  {
    var rest := MatchRest(cVar, t);
    var afterGuard := ConversionOpen + (cVar + rest);
    var afterName := GuardThen + afterGuard;
    var afterOpen := (name + "\")") + afterName;
    MatchTextNested(name, cVar, t);
    ConcatStartsWith(GuardOpen, afterOpen);
    UpToStops(name + "\")", afterName, ' ');
    ConcatStartsWith(name + "\")", afterName);
    ConcatStartsWith(GuardThen, afterGuard);
    ConcatStartsWith(ConversionOpen, cVar + rest);
    UpToStops(cVar, rest, ' ');
    assert (name + "\")")[..|name|] == name;
  }

  /** The match fragment of an item with a space-free long name and variable
      reads back as exactly that name, variable and type. */
  lemma MatchRoundTrip(n: NPItem)
    requires ' ' !in n.name && ' ' !in n.cVar
    ensures DecodeMatch(NPItemGen(n)) == Some((n.name, n.cVar, n.cType))
  {
    var frag := NPItemGen(n);
    MatchHeadRoundTrip(n.name, n.cVar, n.cType);
    if n.cType != Int32 && MatchText(n.name, n.cVar, Int32) == frag {
      MatchTextTypeInjective(n.name, n.cVar, Int32, n.cType);
    }
    if n.cType == Char && MatchText(n.name, n.cVar, CharPtr) == frag {
      MatchTextTypeInjective(n.name, n.cVar, CharPtr, n.cType);
    }
  }

  // ---------------------------------------------------------------------
  // What the post-loop fragment does

  /** The three things the block after the loop can do to an unseen item. */
  datatype PostAction = ExitWithUsage | AssignDefault(literal: string) | LeaveUnset

  /** The decision `NPItem::post_loop` takes: `required` wins over `default`. */
  function Action(n: NPItem): (a: PostAction)
    ensures a == ExitWithUsage <==> n.required == Some(true)
    ensures a.AssignDefault? <==> n.required != Some(true) && n.defaultValue.Some?
    ensures a.AssignDefault? ==> a.literal == DefaultLiteral(n.cType, n.defaultValue.value)
    ensures a == LeaveUnset <==> n.required != Some(true) && n.defaultValue.None?
  {
    if n.required.GetOr(false) then ExitWithUsage
    else if n.defaultValue.Some? then AssignDefault(DefaultLiteral(n.cType, n.defaultValue.value))
    else LeaveUnset
  }

  /** Reads the body of the block back into the action it takes. */
  function BodyAction(cVar: string, body: string): Option<PostAction>
  {
    if body == ExitBody then Some(ExitWithUsage)
    else if body == "" then Some(LeaveUnset)
    else
      var assign := "\t\t*" + cVar + " = ";
      if StartsWith(body, assign) && |assign| + 2 <= |body| && body[|body| - 2..] == ";\n"
      then Some(AssignDefault(body[|assign|..|body| - 2]))
      else None
  }

  /** Reads a post-loop fragment back into the variable whose flag it tests
      and the action it takes when the flag is unset. */
  function DecodePostLoop(frag: string): Option<(string, PostAction)>
  {
    if !StartsWith(frag, PostOpen) then None
    else
      var afterOpen := frag[|PostOpen|..];
      var w := UpTo(afterOpen, ')');
      var r1 := afterOpen[|w|..];
      if |w| < 7 || w[|w| - 7..] != "__isset" || !StartsWith(r1, ") {\n")
         || |r1| < 7 || r1[|r1| - 3..] != "\t}\n"
      then None
      else
        match BodyAction(w[..|w| - 7], r1[4..|r1| - 3])
        case None => None
        case Some(a) => Some((w[..|w| - 7], a))
  }

  lemma BodyActionRoundTrip(n: NPItem)
    ensures BodyAction(n.cVar, PostLoopBody(n)) == Some(Action(n))
  {
    if !n.required.GetOr(false) && n.defaultValue.Some? {
      var assign := "\t\t*" + n.cVar + " = ";
      var lit := DefaultLiteral(n.cType, n.defaultValue.value);
      var body := AssignLine(n.cVar, lit);
      assert body[2] == '*' != ExitBody[2];
      Assoc(assign, lit, ";\n");
      ConcatStartsWith(assign, lit + ";\n");
      assert body[|assign|..|body| - 2] == lit;
    }
  }

  /** The post-loop fragment of an item whose variable holds no `)` reads
      back as that variable and the action `Action` decides. */
  lemma PostLoopRoundTrip(n: NPItem)
    requires ')' !in n.cVar
    ensures DecodePostLoop(NPItemPostLoop(n)) == Some((n.cVar, Action(n)))
  {
    var body := PostLoopBody(n);
    var w := IssetFlag(n.cVar);
    var r1 := ") {\n" + (body + "\t}\n");
    var afterOpen := w + r1;
    Assoc(PostHead(n.cVar), body, "\t}\n");
    Assoc(PostOpen + w, ") {\n", body + "\t}\n");
    Assoc(PostOpen, w, r1);
    ConcatStartsWith(PostOpen, afterOpen);
    UpToStops(w, r1, ')');
    ConcatStartsWith(w, r1);
    assert w[..|w| - 7] == n.cVar;
    Assoc(") {\n", body, "\t}\n");
    Middle(") {\n", body, "\t}\n");
    BodyActionRoundTrip(n);
  }

  /** Takes the C quoting off a default literal. */
  function UnquoteDefault(t: CType, literal: string): Option<string>
  {
    match t
    case Int32 => Some(literal)
    case CharPtr =>
      if 2 <= |literal| && literal[0] == '"' && literal[|literal| - 1] == '"'
      then Some(literal[1..|literal| - 1]) else None
    case Char =>
      if 2 <= |literal| && literal[0] == '\'' && literal[|literal| - 1] == '\''
      then Some(literal[1..|literal| - 1]) else None
  }

  /** The quoting is undone exactly: the default text comes back unchanged. */
  lemma DefaultLiteralRoundTrip(t: CType, d: string)
    ensures UnquoteDefault(t, DefaultLiteral(t, d)) == Some(d)
  {
    match t {
      case Int32 =>
      case CharPtr =>
        var l := DefaultLiteral(t, d);
        assert l[1..|l| - 1] == d;
      case Char =>
        var l := DefaultLiteral(t, d);
        assert l[1..|l| - 1] == d;
    }
  }

  /** A required item exits whatever its default says. */
  lemma RequiredOverDefault(n: NPItem, d: Option<string>)
    requires n.required == Some(true)
    ensures NPItemPostLoop(n) == NPItemPostLoop(n.(defaultValue := d))
    ensures PostLoopBody(n) == ExitBody
  {
  }

  /** The match fragment depends on the long name, the variable and the type
      only. */
  lemma MatchIgnoresOtherFields(n: NPItem, m: NPItem)
    requires n.name == m.name && n.cVar == m.cVar && n.cType == m.cType
    ensures NPItemGen(n) == NPItemGen(m)
  {
  }
}
