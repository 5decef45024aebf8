# argen code generator, modelled in Dafny

argen turns a specification of a command line into a C source file. The
specification has two ordered lists: positional items and named items. A
positional item has a C variable and a C type. A named item has a C variable,
a C type, a long name, an optional short name, optional aliases, optional help
text, an optional `required` flag and an optional default. The generated file
holds four sections:

- the `#include` lines;
- a `usage` function that prints the option list;
- a `parse_args` function that scans `argv` for `--<long name> <value>`, then
  fills in defaults or exits on a missing required option;
- a `main` that declares one variable per item and calls `parse_args`.

This project models the generation engine of `src/codegen.rs`:

- the type whitelist;
- the validity check;
- the per-item fragments;
- the assembly of the four sections and of the file.

It then proves what the generated text carries.

Modules, one per file:

- `Text` (`text.dfy`): `ConcatMap`, which is the source's "push one fragment
  per item in a `for` loop". It comes with lemmas on where each item's
  fragment lands (`OccursAt`, `OccursBefore`), and with `UpTo`, the token
  reader the decoders use.
- `SpecModel` (`spec_model.dfy`):
  - the items as deserialised, with the C type still a string (`RawPItem`,
    `RawNPItem`, `RawSpec`);
  - the validated items, with the type as the three-case `CType`;
  - the identifier rule, the per-item checks in the source's order, and
    `FirstError`;
  - `SanityCheck`, the two check loops as a method, proved to find exactly
    `FirstError`;
  - `LoadSpec`, which validates and converts, and its inverse `Untyped`.
- `Emitter` (`emitter.dfy`):
  - every fragment of `NPItem` and `PItem` as a function;
  - `NPItem::gen` and `NPItem::post_loop` also as methods that push line
    after line, proved equal to the functions;
  - a decoder for every fragment, with a round-trip lemma showing that the
    fragment carries exactly the fields it should;
  - `Action`, the required-over-default decision.
- `Assembler` (`assembler.dfy`):
  - the sections and the whole file as functions;
  - the methods `Entry`, `CUsage`, `CParseArgs`, `CMain` and `SpecGen`,
    each proved equal to its function;
  - `Generate`, which validates and then generates.
- `Readback` (`readback.dfy`): decoders for the lists in the file. They cover
  the declarations in `main`, the address arguments of the call, the seen
  flags and the long options. Round-trip lemmas show that each list is
  exactly the spec's types, variables or names, in spec order.
- `Properties` (`properties.dfy`):
  - the sections come in the order C needs;
  - flags are declared before they are used;
  - per-item pieces keep list order;
  - positional items leave `parse_args` and the usage text untouched;
  - one worked rejection.

The gaps of the generator are modelled as written:

- only `--<name>` is compared in the token loop; short names and aliases
  appear in the usage text only (`LoopIgnoresShortAndAliases`);
- positional items emit empty `gen` and `post_loop` fragments
  (`PositionalSilent`);
- the positional part of the usage line is the fixed text `[TODO ...]`;
- the parameter list of `parse_args` is the fixed text
  `int argc, char **argv /* TODO */`, while `main` passes the address of
  every variable to it. The model reproduces this text; it proves nothing
  about whether the output compiles.

Two details of the checks follow the code exactly:

- names are refused for containing the space character `' '`, as
  `find(' ')` does. Other whitespace such as a tab is accepted.
- a short name is checked by `len()`. In Rust that counts UTF-8 bytes; the
  model counts characters, which is the same for ASCII.

## Model

| member | source | states |
|---|---|---|
| `SpecModel.CTypeName` | src/codegen.rs:8 | the C spelling of each typed type is one of the three whitelisted strings |
| `SpecModel.ParseCType` | src/codegen.rs:120-123 | a type string is accepted exactly when it is in the whitelist, and then it maps back to the same spelling |
| `SpecModel.CTypeNameRoundTrip` | src/codegen.rs:8 | parsing the spelling of a type gives that type back |
| `SpecModel.CheckPItem` | src/codegen.rs:117-124 | a positional item passes exactly when its variable is an identifier and its type is whitelisted; a bad variable is reported with that variable exactly when it is not an identifier, and a bad type with that type exactly when the variable is fine and the type is not whitelisted |
| `SpecModel.CheckNPItem` | src/codegen.rs:125-147 | a named item passes exactly when variable, type, long name, short name and aliases all obey their rules; an absent short name or alias list is never a fault; each fault names its field and value, and is reported exactly when every earlier check passes and its own rule is broken (variable, type, long name, short name, aliases, in that order); an alias fault names the first alias that holds a space |
| `SpecModel.IsIdentifier` | src/codegen.rs:116 | the identifier rule `^[_a-zA-Z][_a-zA-Z0-9]*$`; its consequences are stated by `CheckPItem`, `CheckNPItem` and `Readback.IdentifierHasNoSeparators` |
| `SpecModel.ValidNames` | src/codegen.rs:132-146 | the name rules of a named item; `CheckNPItem` states that a named item with a valid variable and type passes exactly when they hold |
| `SpecModel.FirstSome` | src/codegen.rs:141-146 | no item is reported exactly when every item passes; otherwise the report is the fault of the first failing item |
| `SpecModel.FirstError` | src/codegen.rs:115-148 | the spec has no fault exactly when every positional and every named item passes its checks, so one bad item rejects the whole spec |
| `SpecModel.SanityCheck` | src/codegen.rs:115-148 | the two check loops stop at the same fault `FirstError` names, positional items before named ones, fields in source order |
| `SpecModel.TypedPItems` | src/codegen.rs:11-15 | validated positional items are converted one for one |
| `SpecModel.TypedNPItems` | src/codegen.rs:18-27 | validated named items are converted one for one |
| `SpecModel.UntypedTypedPItems` | src/codegen.rs:11-15 | converting validated positional items and back gives the original items, with identifier variables |
| `SpecModel.UntypedTypedNPItems` | src/codegen.rs:18-27 | converting validated named items and back gives the original items, whose variables and names obey the rules |
| `SpecModel.TypedUntypedPItems` | src/codegen.rs:11-15 | typed positional items with identifier variables pass validation when written out, and convert back to themselves |
| `SpecModel.TypedUntypedNPItems` | src/codegen.rs:18-27 | typed named items obeying the rules pass validation when written out, and convert back to themselves |
| `SpecModel.LoadSpec` | src/codegen.rs:107-113 | loading succeeds exactly when the sanity check passes; a failure reports the first fault; a loaded spec is well formed and writes back to the input |
| `SpecModel.LoadUntyped` | src/codegen.rs:107-113 | every well-formed spec is loaded back from its own written form |
| `Emitter.NPItemDeclMain` | src/codegen.rs:31-33 | the declaration line of a named item; `DeclRoundTrip` and `Readback.MainDeclsRoundTrip` state that it reads back as exactly the item's type and variable |
| `Emitter.NPItemDeclParse` | src/codegen.rs:35-37 | the seen-flag declaration; `DeclParseRoundTrip` and `Readback.FlagsRoundTrip` state that it reads back as exactly the item's variable |
| `Emitter.NPItemGen` | src/codegen.rs:42-58 | the match fragment; `Gen` builds it line by line, `MatchRoundTrip` states that it reads back as exactly long name, variable and type, `MatchIgnoresOtherFields` that nothing else shapes it |
| `Emitter.NPItemPostLoop` | src/codegen.rs:63-80 | the post-loop fragment; `PostLoop` builds it line by line, `PostLoopRoundTrip` states that it tests the item's own flag and carries the action `Action` decides |
| `Emitter.PItemDecl` | src/codegen.rs:86-88 | the declaration line of a positional item; `DeclRoundTrip` and `Readback.MainDeclsRoundTrip` state that it reads back as exactly the item's type and variable |
| `Emitter.PItemGen` | src/codegen.rs:90-92 | a positional item adds nothing to the token loop; `Properties.PositionalSilent` states that positional items leave `parse_args` unchanged |
| `Emitter.PItemPostLoop` | src/codegen.rs:94-96 | a positional item adds no post-loop check; `Properties.PositionalSilent` states that positional items leave `parse_args` unchanged |
| `Emitter.ReadDecl` | src/codegen.rs:31-33 | what the declaration reader accepts is a declaration line of the type and variable it returns, followed by the rest |
| `Emitter.DeclRoundTrip` | src/codegen.rs:86-88 | a declaration line reads back as exactly its type and variable, whatever follows |
| `Emitter.ReadDeclParse` | src/codegen.rs:35-37 | what the flag reader accepts is the `__isset = false` declaration of the variable it returns |
| `Emitter.DeclParseRoundTrip` | src/codegen.rs:35-37 | a named item's flag declaration reads back as exactly its variable |
| `Emitter.Gen` | src/codegen.rs:42-58 | pushing guard, conversion, flag line, counter line and closing brace builds exactly the match fragment |
| `Emitter.DecodeMatch` | src/codegen.rs:46-56 | what the match reader accepts is the match fragment of the name, variable and type it returns |
| `Emitter.MatchTextTypeInjective` | src/codegen.rs:48-53 | the three conversions make three different fragments, so the fragment determines the type |
| `Emitter.MatchHeadRoundTrip` | src/codegen.rs:46-51 | the guard of a fragment compares `argv[i]` with `--` and the long name, and the assignment names the item's variable |
| `Emitter.MatchRoundTrip` | src/codegen.rs:46-56 | a named item's match fragment reads back as exactly its long name, its variable and its type |
| `Emitter.MatchIgnoresOtherFields` | src/codegen.rs:46-47 | the match fragment depends on long name, variable and type only |
| `Emitter.PostLoop` | src/codegen.rs:63-80 | pushing the flag test, the body and the closing brace builds exactly the post-loop fragment |
| `Emitter.Action` | src/codegen.rs:66-77 | an unset item exits exactly when `required` is true (absent counts as false); otherwise it gets its default, quoted by type, exactly when one is given; otherwise it is left unset |
| `Emitter.BodyActionRoundTrip` | src/codegen.rs:66-77 | the body of the flag test reads back as the action `Action` decides |
| `Emitter.PostLoopRoundTrip` | src/codegen.rs:63-80 | a post-loop fragment tests the item's own flag and reads back as the action `Action` decides |
| `Emitter.DefaultLiteralRoundTrip` | src/codegen.rs:70-74 | removing the type's quoting from the rendered default gives back the default text unchanged |
| `Emitter.RequiredOverDefault` | src/codegen.rs:66-69 | a required item's fragment is the usage-and-exit body whatever default it has |
| `Assembler.CHeaders` | src/codegen.rs:150-152 | the three `#include` lines; `Properties.SectionsInOrder` states that the file starts with them |
| `Assembler.UsageEntry` | src/codegen.rs:160-182 | one usage entry; `Entry` builds it as the closure does, `Readback.ShortColumnRoundTrip` and `Readback.LongNamesRoundTrip` state that it lists the short name, the long name and every alias in order |
| `Assembler.UsageText` | src/codegen.rs:154-191 | the usage function; `CUsage` builds it, `Properties.UsageEntriesInOrder` states that the entries appear in list order and `Properties.PositionalSilent` that positional items are not listed |
| `Assembler.ParseArgsText` | src/codegen.rs:193-233 | `parse_args`; `CParseArgs` builds it, `Properties.FlagsDeclaredBeforeUse`, `Properties.MatchesInOrder` and `Properties.PostLoopsInOrder` state where its pieces lie |
| `Assembler.MainText` | src/codegen.rs:235-258 | `main`; `CMain` builds it, `Readback.MainDeclsRoundTrip`, `Readback.CallRoundTrip` and `Readback.PassedAreDeclared` state what it declares and passes |
| `Assembler.Program` | src/codegen.rs:260-265 | the generated file; `SpecGen` builds it and `Properties.SectionsInOrder` states the order of its sections |
| `Assembler.Entry` | src/codegen.rs:160-182 | the closure builds the short column, the long name, every alias, the help line and a newline, exactly as `UsageEntry` says |
| `Assembler.CUsage` | src/codegen.rs:154-191 | the usage function is the fixed head with the `[TODO ...]` placeholder, the `-h` line, then one entry per named item in list order |
| `Assembler.CParseArgs` | src/codegen.rs:193-233 | `parse_args` is flags, counter, token loop of match fragments, positional loop, positional then named post-loop fragments, each list in order |
| `Assembler.CMain` | src/codegen.rs:235-258 | `main` declares positional then named variables and passes their addresses in the same order |
| `Assembler.SpecGen` | src/codegen.rs:260-265 | the file is headers, a blank line, usage, parse_args and main, separated by newlines |
| `Assembler.Generate` | src/codegen.rs:110-111 | code is produced exactly when the spec passes the sanity check, and then it is the file of the loaded spec; otherwise the first fault is reported |
| `Readback.IdentifierHasNoSeparators` | src/codegen.rs:116 | an identifier holds no space, `;`, `,` or `)`, so the generated lists can be read back |
| `Readback.CTypeNameHasNoSpace` | src/codegen.rs:8 | no whitelisted type spelling holds a space |
| `Readback.DeclsRoundTrip` | src/codegen.rs:239-244 | a run of declaration lines reads back as exactly its (type, variable) list |
| `Readback.MainDeclsRoundTrip` | src/codegen.rs:239-244 | `main` declares exactly one variable per item with the item's C type, positional items first, each in list order |
| `Readback.ReadArg` | src/codegen.rs:248 | what the argument reader accepts is `, &` and the variable it returns, followed by the rest |
| `Readback.ArgsRoundTrip` | src/codegen.rs:246-253 | a run of address arguments reads back as exactly its variables |
| `Readback.ArgListRoundTrip` | src/codegen.rs:247-252 | the address arguments are the positional variables, then the named ones, each in list order |
| `Readback.CallRoundTrip` | src/codegen.rs:246-253 | the call of `parse_args` passes exactly the address of every item's variable, in that order |
| `Readback.PassedAreDeclared` | src/codegen.rs:239-253 | the variables passed are exactly the variables declared, in declaration order |
| `Readback.FlagsRoundTrip` | src/codegen.rs:199-202 | `parse_args` declares exactly one seen flag per named item, in list order |
| `Readback.ReadLongOption` | src/codegen.rs:161-166 | what the option reader accepts is `  --` and the name it returns, followed by the rest |
| `Readback.LongOptionsRoundTrip` | src/codegen.rs:161-168 | a run of long options reads back as exactly its names |
| `Readback.LongNamesRoundTrip` | src/codegen.rs:161-168 | a usage entry lists the long name and then every alias, each once, in order |
| `Readback.ShortColumnRoundTrip` | src/codegen.rs:177-181 | a usage entry starts with `  -` and the short name when there is one, and with five spaces otherwise |
| `Properties.SectionsInOrder` | src/codegen.rs:260-265 | the file starts with the headers; `usage` comes before `parse_args`, which comes before `main` |
| `Properties.UsageEntriesInOrder` | src/codegen.rs:158-183 | the usage entries of the named items appear in list order |
| `Properties.MatchesInOrder` | src/codegen.rs:211-213 | the match fragments of the named items appear in list order |
| `Properties.PostLoopsInOrder` | src/codegen.rs:227-229 | the post-loop fragments of the named items appear in list order |
| `Properties.FlagsDeclaredBeforeUse` | src/codegen.rs:199-229 | every seen flag is declared before every match fragment, and every match fragment lies before every post-loop check |
| `Properties.DeclaredBeforePassed` | src/codegen.rs:239-253 | in `main` the declarations come before the call that passes their addresses |
| `Properties.PositionalSilent` | src/codegen.rs:217-226 | positional items change neither `parse_args` nor the usage text |
| `Properties.LoopIgnoresShortAndAliases` | src/codegen.rs:211-213 | changing a named item's short name or aliases leaves the token loop unchanged: only `--name` is matched |
| `Properties.SpaceInNameRefused` | src/codegen.rs:132-134 | a long name with a space is refused with that name before any code is produced, ahead of a later faulty item |

## Left out

- `Spec::from_reader` (src/codegen.rs:107-113): deserialising JSON is not modelled. `LoadSpec` starts from the deserialised record, `RawSpec`, with the C type still a string.
- `Spec::writeout` (src/codegen.rs:269-274): writing the text out is I/O. The model stops at the text.
- The regular expression of src/codegen.rs:116 is replaced by the character predicate `IsIdentifier`, which states the same pattern.
- The `assert!` panics become error values, `ValidationError`, each carrying the offending value. The wording of the panic messages is not modelled.
- SpecModel.CheckNPItem: counts the characters of a short name, where Rust's `len()` counts UTF-8 bytes; the two agree on ASCII.
- The `_ => ()` arms at src/codegen.rs:52 and src/codegen.rs:75 have no counterpart: after validation the type is a `CType`, so the arms cannot be reached.
- Determinism of generation is not stated as a lemma. `Program` is a function of the spec, so it holds by construction.
- The repository's hand-written C sample programs (`example.c`, `example_cli.c`, `simple.c`, `simple_gen.c`) are not part of this model: they are not output of the generator.
