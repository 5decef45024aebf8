/** The argument specification of argen: the records read from the JSON
    document, the whitelist of C types, the validity rules every item must
    meet, and the check that rejects a specification before any C is
    generated (`Spec::sanity_check`, called from `Spec::from_reader`).

    A raw item keeps `c_type` as the string the document held. Validation
    turns it into a typed item whose `CType` is one of the three permitted
    cases, so that the emitter's matches on the type are exhaustive. */
module SpecModel {
  import opened Text

  datatype Option<+T> = None | Some(value: T) {
    /** `Option::unwrap_or`. */
    function GetOr(fallback: T): T
    {
      if Some? then value else fallback
    }
  }

  datatype Result<+T, +E> = Ok(value: T) | Err(error: E)

  /** `PERMITTED_C_TYPES`, as written in the document. */
  const PermittedCTypes: seq<string> := ["char", "char*", "int32"]

  /** The permitted C types as a closed enumeration. */
  datatype CType = Char | CharPtr | Int32

  /** The spelling of a type in the document and in the generated declarations. */
  function CTypeName(t: CType): (s: string)
    ensures s in PermittedCTypes
  {
    match t
    case Char => "char"
    case CharPtr => "char*"
    case Int32 => "int32"
  }

  /** Looks a `c_type` string up in the whitelist. */
  function ParseCType(s: string): (r: Option<CType>)
    ensures r.Some? <==> s in PermittedCTypes
    ensures r.Some? ==> CTypeName(r.value) == s
  {
    if s == "char" then Some(Char)
    else if s == "char*" then Some(CharPtr)
    else if s == "int32" then Some(Int32)
    else None
  }

  lemma CTypeNameRoundTrip(t: CType)
    ensures ParseCType(CTypeName(t)) == Some(t)
  {
  }

  /** A positional item as deserialised (`PItem`). */
  datatype RawPItem = RawPItem(cVar: string, cType: string, help: Option<string>)

  /** A named item as deserialised (`NPItem`). */
  datatype RawNPItem = RawNPItem(
    cVar: string,
    cType: string,
    name: string,
    short: Option<string>,
    aliases: Option<seq<string>>,
    help: Option<string>,
    required: Option<bool>,
    defaultValue: Option<string>)

  /** The root object: `positional` and `non_positional`, both ordered. */
  datatype RawSpec = RawSpec(positional: seq<RawPItem>, nonPositional: seq<RawNPItem>)

  /** A positional item after validation. */
  datatype PItem = PItem(cVar: string, cType: CType, help: Option<string>)

  /** A named item after validation. */
  datatype NPItem = NPItem(
    cVar: string,
    cType: CType,
    name: string,
    short: Option<string>,
    aliases: Option<seq<string>>,
    help: Option<string>,
    required: Option<bool>,
    defaultValue: Option<string>)

  /** A validated specification. */
  datatype Spec = Spec(positional: seq<PItem>, nonPositional: seq<NPItem>)

  /** Why a specification was rejected: the offending field's value. */
  datatype ValidationError =
    | InvalidCVar(cVar: string)
    | InvalidCType(cType: string)
    | InvalidName(name: string)
    | InvalidShort(short: string)
    | InvalidAlias(alias: string)

  // ---------------------------------------------------------------------
  // Validity rules

  predicate IsIdentifierStart(c: char)
  {
    c == '_' || 'a' <= c <= 'z' || 'A' <= c <= 'Z'
  }

  predicate IsIdentifierPart(c: char)
  {
    IsIdentifierStart(c) || '0' <= c <= '9'
  }

  /** The whole string matches `^[_a-zA-Z][_a-zA-Z0-9]*$`. */
  predicate IsIdentifier(s: string)
  {
    |s| > 0 && IsIdentifierStart(s[0]) && forall i | 1 <= i < |s| :: IsIdentifierPart(s[i])
  }

  /** The name rules of a named item: no space in the long name or in any
      alias, and a short name, when given, of length one. */
  predicate ValidNames(name: string, short: Option<string>, aliases: Option<seq<string>>)
  {
    && ' ' !in name
    && (short.Some? ==> |short.value| == 1)
    && (aliases.Some? ==> forall a <- aliases.value :: ' ' !in a)
  }

  predicate ValidRawPItem(p: RawPItem)
  {
    IsIdentifier(p.cVar) && p.cType in PermittedCTypes
  }

  predicate ValidRawNPItem(n: RawNPItem)
  {
    IsIdentifier(n.cVar) && n.cType in PermittedCTypes && ValidNames(n.name, n.short, n.aliases)
  }

  /** Every item of the document passes its own rules. */
  predicate ValidRawSpec(raw: RawSpec)
  {
    && (forall p <- raw.positional :: ValidRawPItem(p))
    && (forall n <- raw.nonPositional :: ValidRawNPItem(n))
  }

  /** The same rules, on a specification whose types are already typed. */
  predicate WellFormed(s: Spec)
  {
    && (forall p <- s.positional :: IsIdentifier(p.cVar))
    && (forall n <- s.nonPositional :: IsIdentifier(n.cVar) && ValidNames(n.name, n.short, n.aliases))
  }

  // ---------------------------------------------------------------------
  // The checks, in the order the source makes them

  /** The first element of `xs` that `check` objects to, and its objection. */
  function FirstSome<T, E>(check: T -> Option<E>, xs: seq<T>): (r: Option<E>)
    ensures r.None? <==> forall k | 0 <= k < |xs| :: check(xs[k]).None?
    ensures r.Some? ==> exists k | 0 <= k < |xs| :: check(xs[k]) == r && forall m | 0 <= m < k :: check(xs[m]).None?
  {
    if xs == [] then None
    else if check(xs[0]).Some? then check(xs[0])
    else
      var rest := FirstSome(check, xs[1..]);
      assert forall k | 1 <= k < |xs| :: xs[k] == xs[1..][k - 1];
      rest
  }

  /** When every element before `k` passes and `xs[k]` does not, the first
      objection is the one to `xs[k]`. */
  lemma {:induction false} FirstSomeAt<T, E>(check: T -> Option<E>, xs: seq<T>, k: nat)
    requires k < |xs| && check(xs[k]).Some?
    requires forall m | 0 <= m < k :: check(xs[m]).None?
    ensures FirstSome(check, xs) == check(xs[k])
  {
    if k > 0 {
      assert check(xs[0]).None?;
      assert xs[1..][k - 1] == xs[k];
      FirstSomeAt(check, xs[1..], k - 1);
    }
  }

  function CheckAlias(alias: string): Option<ValidationError>
  {
    if ' ' in alias then Some(InvalidAlias(alias)) else None
  }

  /** The checks on a positional item: the variable, then the type. */
  function CheckPItem(p: RawPItem): (r: Option<ValidationError>)
    ensures r.None? <==> ValidRawPItem(p)
    ensures r == Some(InvalidCVar(p.cVar)) <==> !IsIdentifier(p.cVar)
    ensures r == Some(InvalidCType(p.cType)) <==> IsIdentifier(p.cVar) && p.cType !in PermittedCTypes
  {
    if !IsIdentifier(p.cVar) then Some(InvalidCVar(p.cVar))
    else if p.cType !in PermittedCTypes then Some(InvalidCType(p.cType))
    else None
  }

  /** The checks on a named item: variable, type, long name, short name,
      then each alias in order. */
  function CheckNPItem(n: RawNPItem): (r: Option<ValidationError>)
    ensures r.None? <==> ValidRawNPItem(n)
    ensures r == Some(InvalidCVar(n.cVar)) <==> !IsIdentifier(n.cVar)
    ensures r == Some(InvalidCType(n.cType)) <==> IsIdentifier(n.cVar) && n.cType !in PermittedCTypes
    ensures r == Some(InvalidName(n.name)) <==>
            IsIdentifier(n.cVar) && n.cType in PermittedCTypes && ' ' in n.name
    ensures (n.short.Some? && r == Some(InvalidShort(n.short.value))) <==>
            IsIdentifier(n.cVar) && n.cType in PermittedCTypes && ' ' !in n.name
            && n.short.Some? && |n.short.value| != 1
    ensures (r.Some? && r.value.InvalidAlias?) <==>
            IsIdentifier(n.cVar) && n.cType in PermittedCTypes && ' ' !in n.name
            && (n.short.Some? ==> |n.short.value| == 1)
            && n.aliases.Some? && exists a <- n.aliases.value :: ' ' in a
    ensures r.Some? && r.value.InvalidAlias? ==>
            n.aliases.Some? &&
            exists k | 0 <= k < |n.aliases.value| ::
              r.value.alias == n.aliases.value[k] && ' ' in n.aliases.value[k]
              && forall m | 0 <= m < k :: ' ' !in n.aliases.value[m]
  {
    if !IsIdentifier(n.cVar) then Some(InvalidCVar(n.cVar))
    else if n.cType !in PermittedCTypes then Some(InvalidCType(n.cType))
    else if ' ' in n.name then Some(InvalidName(n.name))
    else if n.short.Some? && |n.short.value| != 1 then Some(InvalidShort(n.short.value))
    else if n.aliases.Some? then FirstSome(CheckAlias, n.aliases.value)
    else None
  }

  /** The first violation in the document: positional items first, then
      named ones, each in list order. */
  function FirstError(raw: RawSpec): (r: Option<ValidationError>)
    ensures r.None? <==> ValidRawSpec(raw)
  {
    match FirstSome(CheckPItem, raw.positional)
    case Some(e) => Some(e)
    case None => FirstSome(CheckNPItem, raw.nonPositional)
  }

  // ---------------------------------------------------------------------
  // From the document to a typed specification and back

  function TypedPItems(ps: seq<RawPItem>): (r: seq<PItem>)
    requires forall p <- ps :: ValidRawPItem(p)
    ensures |r| == |ps|
  {
    if ps == [] then []
    else
      var p := ps[0];
      assert p in ps && ValidRawPItem(p);
      assert ParseCType(p.cType).Some?;
      [PItem(p.cVar, ParseCType(p.cType).value, p.help)] + TypedPItems(ps[1..])
  }

  function TypedNPItems(ns: seq<RawNPItem>): (r: seq<NPItem>)
    requires forall n <- ns :: ValidRawNPItem(n)
    ensures |r| == |ns|
  {
    if ns == [] then []
    else
      var n := ns[0];
      assert n in ns && ValidRawNPItem(n);
      assert ParseCType(n.cType).Some?;
      [NPItem(n.cVar, ParseCType(n.cType).value, n.name, n.short, n.aliases, n.help, n.required, n.defaultValue)]
      + TypedNPItems(ns[1..])
  }

  function UntypedPItem(p: PItem): RawPItem
  {
    RawPItem(p.cVar, CTypeName(p.cType), p.help)
  }

  function UntypedNPItem(n: NPItem): RawNPItem
  {
    RawNPItem(n.cVar, CTypeName(n.cType), n.name, n.short, n.aliases, n.help, n.required, n.defaultValue)
  }

  /** The document a typed specification was read from. */
  function Untyped(s: Spec): RawSpec
  {
    RawSpec(Map(UntypedPItem, s.positional), Map(UntypedNPItem, s.nonPositional))
  }

  lemma {:induction false} UntypedTypedPItems(ps: seq<RawPItem>)
    requires forall p <- ps :: ValidRawPItem(p)
    ensures Map(UntypedPItem, TypedPItems(ps)) == ps
    ensures forall p <- TypedPItems(ps) :: IsIdentifier(p.cVar)
  {
    if ps != [] {
      assert ps[0] in ps;
      UntypedTypedPItems(ps[1..]);
      var t := TypedPItems(ps);
      assert t == [t[0]] + TypedPItems(ps[1..]);
      assert Map(UntypedPItem, t) == [UntypedPItem(t[0])] + Map(UntypedPItem, t[1..]);
      assert ps == [ps[0]] + ps[1..];
    }
  }

  lemma {:induction false} UntypedTypedNPItems(ns: seq<RawNPItem>)
    requires forall n <- ns :: ValidRawNPItem(n)
    ensures Map(UntypedNPItem, TypedNPItems(ns)) == ns
    ensures forall n <- TypedNPItems(ns) :: IsIdentifier(n.cVar) && ValidNames(n.name, n.short, n.aliases)
  {
    if ns != [] {
      assert ns[0] in ns;
      UntypedTypedNPItems(ns[1..]);
      var t := TypedNPItems(ns);
      assert t == [t[0]] + TypedNPItems(ns[1..]);
      assert Map(UntypedNPItem, t) == [UntypedNPItem(t[0])] + Map(UntypedNPItem, t[1..]);
      assert ns == [ns[0]] + ns[1..];
    }
  }

  /** `Spec::from_reader` after deserialisation: the document is checked, and
      either rejected with its first violation or accepted whole. */
  function LoadSpec(raw: RawSpec): (r: Result<Spec, ValidationError>)
    ensures r.Ok? <==> ValidRawSpec(raw)
    ensures r.Err? ==> FirstError(raw) == Some(r.error)
    ensures r.Ok? ==> WellFormed(r.value) && Untyped(r.value) == raw
  {
    match FirstError(raw)
    case Some(e) => Err(e)
    case None =>
      UntypedTypedPItems(raw.positional);
      UntypedTypedNPItems(raw.nonPositional);
      Ok(Spec(TypedPItems(raw.positional), TypedNPItems(raw.nonPositional)))
  }

  /** Every well-formed specification is accepted, and read back unchanged. */
  lemma {:induction false} LoadUntyped(s: Spec)
    requires WellFormed(s)
    ensures LoadSpec(Untyped(s)) == Ok(s)
  {
    var raw := Untyped(s);
    TypedUntypedPItems(s.positional);
    TypedUntypedNPItems(s.nonPositional);
  }

  lemma {:induction false} TypedUntypedPItems(ps: seq<PItem>)
    requires forall p <- ps :: IsIdentifier(p.cVar)
    ensures forall p <- Map(UntypedPItem, ps) :: ValidRawPItem(p)
    ensures TypedPItems(Map(UntypedPItem, ps)) == ps
  {
    if ps != [] {
      CTypeNameRoundTrip(ps[0].cType);
      TypedUntypedPItems(ps[1..]);
    }
  }

  lemma {:induction false} TypedUntypedNPItems(ns: seq<NPItem>)
    requires forall n <- ns :: IsIdentifier(n.cVar) && ValidNames(n.name, n.short, n.aliases)
    ensures forall n <- Map(UntypedNPItem, ns) :: ValidRawNPItem(n)
    ensures TypedNPItems(Map(UntypedNPItem, ns)) == ns
  {
    if ns != [] {
      CTypeNameRoundTrip(ns[0].cType);
      TypedUntypedNPItems(ns[1..]);
    }
  }

  // ---------------------------------------------------------------------
  // The check as the source runs it

  /** `Spec::sanity_check`: two loops of checks that stop at the first
      violation. The source panics there; here the violation is returned. */
  method SanityCheck(raw: RawSpec) returns (err: Option<ValidationError>)
    ensures err == FirstError(raw)
  {
    for i := 0 to |raw.positional|
      invariant forall k | 0 <= k < i :: CheckPItem(raw.positional[k]).None?
    {
      var pi := raw.positional[i];
      if !IsIdentifier(pi.cVar) {
        FirstSomeAt(CheckPItem, raw.positional, i);
        return Some(InvalidCVar(pi.cVar));
      }
      var validType := pi.cType in PermittedCTypes;
      if !validType {
        FirstSomeAt(CheckPItem, raw.positional, i);
        return Some(InvalidCType(pi.cType));
      }
    }
    for i := 0 to |raw.nonPositional|
      invariant forall k | 0 <= k < i :: CheckNPItem(raw.nonPositional[k]).None?
    {
      var pi := raw.nonPositional[i];
      if !IsIdentifier(pi.cVar) {
        FirstSomeAt(CheckNPItem, raw.nonPositional, i);
        return Some(InvalidCVar(pi.cVar));
      }
      var validType := pi.cType in PermittedCTypes;
      if !validType {
        FirstSomeAt(CheckNPItem, raw.nonPositional, i);
        return Some(InvalidCType(pi.cType));
      }
      if ' ' in pi.name {
        FirstSomeAt(CheckNPItem, raw.nonPositional, i);
        return Some(InvalidName(pi.name));
      }
      if pi.short.Some? && |pi.short.value| != 1 {
        FirstSomeAt(CheckNPItem, raw.nonPositional, i);
        return Some(InvalidShort(pi.short.value));
      }
      if pi.aliases.Some? {
        var aliases := pi.aliases.value;
        for j := 0 to |aliases|
          invariant forall m | 0 <= m < j :: ' ' !in aliases[m]
        {
          if ' ' in aliases[j] {
            FirstSomeAt(CheckAlias, aliases, j);
            FirstSomeAt(CheckNPItem, raw.nonPositional, i);
            return Some(InvalidAlias(aliases[j]));
          }
        }
      }
    }
    return None;
  }
}
