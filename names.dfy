/**
 * The naming constants shared by the two compiler passes of pallet-verifier
 * (src/lib.rs) and the `CallKind` of an analysed pallet function.
 *
 * The passes are separate compiler invocations that share no memory, so these
 * literals are the only "wire format" between them: the first pass generates
 * modules and functions with these names, the second finds them by name again.
 */
module PalletNames {
  import opened Wrappers

  /** Name of the generated module holding the entry points. */
  const EntryPointsModName: string := "__pallet_verifier_entry_points"
  /** Prefix of every generated entry-point function. */
  const EntryPointFnPrefix: string := "__pallet_verifier_entry_point__"
  /** Name of the generated module holding the MIRAI contracts. */
  const ContractsModName: string := "foreign_contracts"
  /** Environment variable carrying the pointer width of the target. */
  const EnvTargetPointerWidth: string := "PALLET_VERIFIER_TARGET_POINTER_WIDTH"

  /** Kind of pallet function. Equality is structural (`#[derive(PartialEq, Eq)]`). */
  datatype CallKind = Dispatchable | PubAssocFn

  /** The `Display` string of a kind. */
  function Display(kind: CallKind): (s: string)
    ensures s == "dispatchable" <==> kind == Dispatchable
    ensures s == "pub assoc fn" <==> kind == PubAssocFn
  {
    match kind
    case Dispatchable => "dispatchable"
    case PubAssocFn => "pub assoc fn"
  }

  /** Reads a kind back from its display string; the partner of `Display`. */
  function ParseCallKind(s: string): (r: Option<CallKind>)
    ensures r.Some? ==> Display(r.value) == s
  {
    if s == "dispatchable" then Some(Dispatchable)
    else if s == "pub assoc fn" then Some(PubAssocFn)
    else None
  }

  /** Parsing the display string of a kind gives the kind back. */
  lemma DisplayRoundTrip(kind: CallKind)
    ensures ParseCallKind(Display(kind)) == Some(kind)
  {
  }

  /** Distinct kinds are displayed differently. */
  lemma DisplayInjective(k1: CallKind, k2: CallKind)
    ensures Display(k1) == Display(k2) <==> k1 == k2
  {
  }

  /** `CallKind` has exactly the two variants. */
  lemma CallKindExhaustive(kind: CallKind)
    ensures kind == Dispatchable || kind == PubAssocFn
    ensures Dispatchable != PubAssocFn
  {
  }

  /** The name of a generated entry-point function for the discriminator `name`. */
  function EntryPointFnName(name: string): (s: string)
    ensures EntryPointFnPrefix <= s
    ensures |s| == |EntryPointFnPrefix| + |name|
    ensures s[|EntryPointFnPrefix|..] == name
  {
    EntryPointFnPrefix + name
  }

  /** Recognises a generated entry-point name and recovers its discriminator. */
  function StripEntryPointPrefix(s: string): (r: Option<string>)
    ensures r.Some? <==> EntryPointFnPrefix <= s
    ensures r.Some? ==> EntryPointFnName(r.value) == s
  {
    if EntryPointFnPrefix <= s then Some(s[|EntryPointFnPrefix|..]) else None
  }

  /** Stripping the prefix from a generated name gives the discriminator back. */
  lemma EntryPointNameRoundTrip(name: string)
    ensures StripEntryPointPrefix(EntryPointFnName(name)) == Some(name)
  {
  }

  /** A string is a generated entry-point name exactly when the prefix can be stripped from it. */
  lemma StripEntryPointPrefixComplete(s: string, name: string)
    ensures StripEntryPointPrefix(s) == Some(name) <==> s == EntryPointFnName(name)
  {
  }

  /** Distinct discriminators give distinct entry-point names. */
  lemma EntryPointFnNameInjective(n1: string, n2: string)
    ensures EntryPointFnName(n1) == EntryPointFnName(n2) <==> n1 == n2
  {
  }

  /** The four constants have pairwise distinct values. */
  lemma ConstantsDistinct()
    ensures EntryPointsModName != ContractsModName
    ensures EntryPointsModName != EntryPointFnPrefix
    ensures EntryPointsModName != EnvTargetPointerWidth
    ensures ContractsModName != EntryPointFnPrefix
    ensures ContractsModName != EnvTargetPointerWidth
    ensures EntryPointFnPrefix != EnvTargetPointerWidth
  {
  }

  /**
   * No generated entry-point function is named like either generated module,
   * whatever its discriminator: the module name is one character shorter than
   * the prefix, and the contracts module name does not start with it.
   */
  lemma EntryPointFnNameAvoidsModNames(name: string)
    ensures EntryPointFnName(name) != EntryPointsModName
    ensures EntryPointFnName(name) != ContractsModName
  {
  }
}
