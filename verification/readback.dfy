/** Reading the lists of the generated file back.

    `main` declares one variable per item and passes their addresses to
    `parse_args`; `parse_args` declares one seen flag per named item; the
    usage text lists each named item's long options. Each list below has a
    decoder, and the round-trip lemmas show that the generated list holds
    exactly the spec's types, variables and names, in the spec's order, and
    nothing else. */
module Readback {
  import opened SpecModel
  import opened Text
  import opened Emitter
  import opened Assembler

  /** What an identifier leaves out: the separators the decoders stop at. */
  lemma IdentifierHasNoSeparators(v: string)
    requires IsIdentifier(v)
    ensures ' ' !in v && ';' !in v && ',' !in v && ')' !in v
  {
    forall i | 0 <= i < |v|
      ensures v[i] != ' ' && v[i] != ';' && v[i] != ',' && v[i] != ')'
    {
      assert IsIdentifierPart(v[i]);
    }
  }

  lemma CTypeNameHasNoSpace(t: CType)
    ensures ' ' !in CTypeName(t)
  {
  }

  // ---------------------------------------------------------------------
  // Declarations in main

  function DeclOf(d: (string, string)): string
  {
    DeclLine(d.0, d.1)
  }

  /** A run of declaration lines, as (type, variable) pairs. */
  function DecodeDecls(s: string): Option<seq<(string, string)>>
    decreases |s|
  {
    if s == [] then Some([])
    else
      match ReadDecl(s)
      case None => None
      case Some((t, v, rest)) =>
        match DecodeDecls(rest)
        case None => None
        case Some(ds) => Some([(t, v)] + ds)
  }

  lemma {:induction false} DeclsRoundTrip(ds: seq<(string, string)>)
    requires forall k | 0 <= k < |ds| :: ' ' !in ds[k].0 && ';' !in ds[k].1
    ensures DecodeDecls(ConcatMap(DeclOf, ds)) == Some(ds)
  {
    if ds != [] {
      var rest := ConcatMap(DeclOf, ds[1..]);
      assert ConcatMap(DeclOf, ds) == DeclLine(ds[0].0, ds[0].1) + rest;
      DeclRoundTrip(ds[0].0, ds[0].1, rest);
      DeclsRoundTrip(ds[1..]);
      assert ds == [ds[0]] + ds[1..];
    }
  }

  function PItemDeclPair(p: PItem): (string, string)
  {
    (CTypeName(p.cType), p.cVar)
  }

  function NPItemDeclPair(n: NPItem): (string, string)
  {
    (CTypeName(n.cType), n.cVar)
  }

  /** `main` declares exactly one variable per item, of the item's C type,
      positional items first, each list in spec order. */
  lemma MainDeclsRoundTrip(s: Spec)
    requires WellFormed(s)
    ensures DecodeDecls(MainDecls(s)) ==
            Some(Map(PItemDeclPair, s.positional) + Map(NPItemDeclPair, s.nonPositional))
  {
    var a: seq<(string, string)>, b: seq<(string, string)> := Map(PItemDeclPair, s.positional), Map(NPItemDeclPair, s.nonPositional);
    ConcatMapOfMap(PItemDecl, DeclOf, PItemDeclPair, s.positional);
    ConcatMapOfMap(NPItemDeclMain, DeclOf, NPItemDeclPair, s.nonPositional);
    ConcatMapAppend(DeclOf, a, b);
    MapAt(PItemDeclPair, s.positional);
    MapAt(NPItemDeclPair, s.nonPositional);
    forall k | 0 <= k < |a + b|
      ensures ' ' !in (a + b)[k].0 && ';' !in (a + b)[k].1
    {
      if k < |a| {
        CTypeNameHasNoSpace(s.positional[k].cType);
        IdentifierHasNoSeparators(s.positional[k].cVar);
      } else {
        CTypeNameHasNoSpace(s.nonPositional[k - |a|].cType);
        IdentifierHasNoSeparators(s.nonPositional[k - |a|].cVar);
      }
    }
    DeclsRoundTrip(a + b);
  }

  // ---------------------------------------------------------------------
  // The call of parse_args

  /** Takes one `, &<var>` argument off the front of `s`. */
  function ReadArg(s: string): (r: Option<(string, string)>)
    ensures r.Some? ==> s == AddressArg(r.value.0) + r.value.1
  {
    if !StartsWith(s, ", &") then None
    else
      var v := UpTo(s[3..], ',');
      StartsWithSplit(s, ", &");
      StartsWithSplit(s[3..], v);
      Assoc(", &", v, s[3..][|v|..]);
      Some((v, s[3..][|v|..]))
  }

  /** A run of address arguments, as the variables they name. */
  function DecodeArgs(s: string): Option<seq<string>>
    decreases |s|
  {
    if s == [] then Some([])
    else
      match ReadArg(s)
      case None => None
      case Some((v, rest)) =>
        match DecodeArgs(rest)
        case None => None
        case Some(vs) => Some([v] + vs)
  }

  /** An argument reads back as its variable, when the variable holds no
      comma and what follows is another argument or nothing. */
  lemma ArgRoundTrip(v: string, rest: string)
    requires ',' !in v
    requires rest == [] || rest[0] == ','
    ensures ReadArg(AddressArg(v) + rest) == Some((v, rest))
  {
    Assoc(", &", v, rest);
    ConcatStartsWith(", &", v + rest);
    UpToStops(v, rest, ',');
    ConcatStartsWith(v, rest);
  }

  /** A run of arguments is empty or starts with a comma. */
  lemma ArgsStartWithComma(vs: seq<string>)
    ensures ConcatMap(AddressArg, vs) == [] || ConcatMap(AddressArg, vs)[0] == ','
  {
    if vs != [] {
      assert ConcatMap(AddressArg, vs) == AddressArg(vs[0]) + ConcatMap(AddressArg, vs[1..]);
    }
  }

  lemma {:induction false} ArgsRoundTrip(vs: seq<string>)
    requires forall k | 0 <= k < |vs| :: ',' !in vs[k]
    ensures DecodeArgs(ConcatMap(AddressArg, vs)) == Some(vs)
  {
    if vs != [] {
      var rest := ConcatMap(AddressArg, vs[1..]);
      assert ConcatMap(AddressArg, vs) == AddressArg(vs[0]) + rest;
      ArgsStartWithComma(vs[1..]);
      ArgRoundTrip(vs[0], rest);
      ArgsRoundTrip(vs[1..]);
      assert [vs[0]] + vs[1..] == vs;
    }
  }

  /** The argument list of a call text: what lies between its opening and
      its closing. */
  function ReadCall(t: string): Option<seq<string>>
  {
    if |CallOpen| + |CallClose| <= |t| && StartsWith(t, CallOpen) && t[|t| - |CallClose|..] == CallClose
    then DecodeArgs(t[|CallOpen|..|t| - |CallClose|])
    else None
  }

  function PItemVar(p: PItem): string
  {
    p.cVar
  }

  function NPItemVar(n: NPItem): string
  {
    n.cVar
  }

  /** The address arguments, positional items first, each list in spec order. */
  lemma ArgListRoundTrip(s: Spec)
    requires WellFormed(s)
    ensures DecodeArgs(ConcatMap(PItemArg, s.positional) + ConcatMap(NPItemArg, s.nonPositional)) ==
            Some(Map(PItemVar, s.positional) + Map(NPItemVar, s.nonPositional))
  {
    var a: seq<string>, b: seq<string> := Map(PItemVar, s.positional), Map(NPItemVar, s.nonPositional);
    ConcatMapOfMap(PItemArg, AddressArg, PItemVar, s.positional);
    ConcatMapOfMap(NPItemArg, AddressArg, NPItemVar, s.nonPositional);
    ConcatMapAppend(AddressArg, a, b);
    MapAt(PItemVar, s.positional);
    MapAt(NPItemVar, s.nonPositional);
    forall k | 0 <= k < |a + b|
      ensures ',' !in (a + b)[k]
    {
      if k < |a| {
        IdentifierHasNoSeparators(s.positional[k].cVar);
      } else {
        IdentifierHasNoSeparators(s.nonPositional[k - |a|].cVar);
      }
    }
    ArgsRoundTrip(a + b);
  }

  /** `main` passes the address of every item's variable to `parse_args`,
      positional items first, each list in spec order. */
  lemma CallRoundTrip(s: Spec)
    requires WellFormed(s)
    ensures ReadCall(CallText(s)) == Some(Map(PItemVar, s.positional) + Map(NPItemVar, s.nonPositional))
  {
    Middle(CallOpen, ConcatMap(PItemArg, s.positional) + ConcatMap(NPItemArg, s.nonPositional), CallClose);
    ArgListRoundTrip(s);
  }

  /** The variables `main` passes are the variables it declares, in the
      order it declares them. */
  lemma PassedAreDeclared(s: Spec)
    requires WellFormed(s)
    ensures DecodeDecls(MainDecls(s)).Some? && ReadCall(CallText(s)).Some?
    ensures Map(DeclVar, DecodeDecls(MainDecls(s)).value) == ReadCall(CallText(s)).value
  {
    MainDeclsRoundTrip(s);
    CallRoundTrip(s);
    MapAppend(DeclVar, Map(PItemDeclPair, s.positional), Map(NPItemDeclPair, s.nonPositional));
    MapFuse(PItemVar, DeclVar, PItemDeclPair, s.positional);
    MapFuse(NPItemVar, DeclVar, NPItemDeclPair, s.nonPositional);
  }

  function DeclVar(d: (string, string)): string
  {
    d.1
  }

  // ---------------------------------------------------------------------
  // The seen flags of parse_args

  /** A run of seen-flag declarations, as the variables they belong to. */
  function DecodeFlags(s: string): Option<seq<string>>
    decreases |s|
  {
    if s == [] then Some([])
    else
      match ReadDeclParse(s)
      case None => None
      case Some((v, rest)) =>
        match DecodeFlags(rest)
        case None => None
        case Some(vs) => Some([v] + vs)
  }

  /** `parse_args` declares one seen flag per named item, in spec order. */
  lemma {:induction false} FlagsRoundTrip(ns: seq<NPItem>)
    requires forall k | 0 <= k < |ns| :: IsIdentifier(ns[k].cVar)
    ensures DecodeFlags(ConcatMap(NPItemDeclParse, ns)) == Some(Map(NPItemVar, ns))
  {
    if ns != [] {
      IdentifierHasNoSeparators(ns[0].cVar);
      DeclParseRoundTrip(ns[0], ConcatMap(NPItemDeclParse, ns[1..]));
      FlagsRoundTrip(ns[1..]);
      assert Map(NPItemVar, ns) == [ns[0].cVar] + Map(NPItemVar, ns[1..]);
    }
  }

  // ---------------------------------------------------------------------
  // Long options in the usage text

  /** Takes one `  --<name>` off the front of `s`. */
  function ReadLongOption(s: string): (r: Option<(string, string)>)
    ensures r.Some? ==> s == LongOption(r.value.0) + r.value.1
  {
    if !StartsWith(s, "  --") then None
    else
      var x := UpTo(s[4..], ' ');
      StartsWithSplit(s, "  --");
      StartsWithSplit(s[4..], x);
      Assoc("  --", x, s[4..][|x|..]);
      Some((x, s[4..][|x|..]))
  }

  function DecodeLongOptions(s: string): Option<seq<string>>
    decreases |s|
  {
    if s == [] then Some([])
    else
      match ReadLongOption(s)
      case None => None
      case Some((x, rest)) =>
        match DecodeLongOptions(rest)
        case None => None
        case Some(xs) => Some([x] + xs)
  }

  /** A long option reads back as its name, when the name holds no space
      and what follows is another option or nothing. */
  lemma LongOptionRoundTrip(x: string, rest: string)
    requires ' ' !in x
    requires rest == [] || rest[0] == ' '
    ensures ReadLongOption(LongOption(x) + rest) == Some((x, rest))
  {
    Assoc("  --", x, rest);
    ConcatStartsWith("  --", x + rest);
    UpToStops(x, rest, ' ');
    ConcatStartsWith(x, rest);
  }

  /** A run of long options is empty or starts with a space. */
  lemma LongOptionsStartWithSpace(xs: seq<string>)
    ensures ConcatMap(LongOption, xs) == [] || ConcatMap(LongOption, xs)[0] == ' '
  {
    if xs != [] {
      assert ConcatMap(LongOption, xs) == LongOption(xs[0]) + ConcatMap(LongOption, xs[1..]);
    }
  }

  lemma {:induction false} LongOptionsRoundTrip(xs: seq<string>)
    requires forall k | 0 <= k < |xs| :: ' ' !in xs[k]
    ensures DecodeLongOptions(ConcatMap(LongOption, xs)) == Some(xs)
  {
    if xs != [] {
      var rest := ConcatMap(LongOption, xs[1..]);
      assert ConcatMap(LongOption, xs) == LongOption(xs[0]) + rest;
      LongOptionsStartWithSpace(xs[1..]);
      LongOptionRoundTrip(xs[0], rest);
      LongOptionsRoundTrip(xs[1..]);
      assert [xs[0]] + xs[1..] == xs;
    }
  }

  /** A usage entry lists the long name and then every alias, each exactly once. */
  lemma LongNamesRoundTrip(n: NPItem)
    requires ValidNames(n.name, n.short, n.aliases)
    ensures DecodeLongOptions(LongNames(n)) == Some([n.name] + n.aliases.GetOr([]))
  {
    var aliases := n.aliases.GetOr([]);
    ConcatMapAppend(LongOption, [n.name], aliases);
    ConcatMapOne(LongOption, n.name);
    LongOptionsRoundTrip([n.name] + aliases);
  }

  /** The short-name column of a usage entry, read back. */
  function ReadShortColumn(entry: string): Option<Option<string>>
  {
    if StartsWith(entry, "     ") then Some(None)
    else if StartsWith(entry, "  -") && 4 <= |entry| then Some(Some(entry[3..4]))
    else None
  }

  /** The column shows the short name when there is one and is blank otherwise. */
  lemma ShortColumnRoundTrip(n: NPItem)
    requires ValidNames(n.name, n.short, n.aliases)
    ensures ReadShortColumn(UsageEntry(n)) == Some(n.short)
  {
    var e := UsageEntry(n);
    if n.short.Some? {
      assert e[2] == '-';
      assert e[3..4] == n.short.value;
    } else {
      assert e[..5] == "     ";
    }
  }
}
