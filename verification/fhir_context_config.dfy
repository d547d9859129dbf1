/** `FhirContextR4Config`: the JPA server's FHIR context is told, by FHIR
    version, at which single path resource references keep their version
    when parsed ("don't strip versions from references at paths"). */
module FhirContextConfig {

  /** The FHIR versions, oldest first (`FhirVersionEnum` in declaration
      order; `isOlderThan` compares positions in this order). */
  datatype FhirVersion = DSTU2 | DSTU2_HL7ORG | DSTU2_1 | DSTU3 | R4 | R4B | R5

  function Ordinal(v: FhirVersion): nat {
    match v
    case DSTU2 => 0
    case DSTU2_HL7ORG => 1
    case DSTU2_1 => 2
    case DSTU3 => 3
    case R4 => 4
    case R4B => 5
    case R5 => 6
  }

  predicate IsOlderThan(v: FhirVersion, other: FhirVersion) {
    Ordinal(v) < Ordinal(other)
  }

  const DEFAULT_PRESERVE_VERSION_REFS_DSTU2: string := "AuditEvent.object.reference"
  const DEFAULT_PRESERVE_VERSION_REFS_DSTU3: string := "AuditEvent.entity.reference"
  const DEFAULT_PRESERVE_VERSION_REFS_R4_AND_LATER: string := "AuditEvent.entity.what"

  /** The parser options: the paths whose references keep their version,
      and every other parser setting, by name. */
  datatype ParserOptions = ParserOptions(
    dontStripVersionsFromReferencesAtPaths: set<string>,
    otherSettings: map<string, string>)

  /** A FHIR context: its version and its parser options. */
  datatype FhirContext = FhirContext(version: FhirVersion, parserOptions: ParserOptions)

  /** `setDontStripVersionsFromReferencesAtPaths` with one path: the path
      set becomes exactly that path. */
  function SetDontStripVersionsFromReferencesAtPaths(o: ParserOptions, path: string): (r: ParserOptions)
    ensures r.dontStripVersionsFromReferencesAtPaths == {path}
    ensures r.otherSettings == o.otherSettings
  {
    o.(dontStripVersionsFromReferencesAtPaths := {path})
  }

  /** `configureFhirContext`: versions older than DSTU3 keep versions at
      `AuditEvent.object.reference`, DSTU3 at `AuditEvent.entity.reference`,
      and R4 and later at `AuditEvent.entity.what`. The context comes back
      with only that option changed. */
  function ConfigureFhirContext(ctx: FhirContext): (r: FhirContext)
    ensures r.version == ctx.version
    ensures r.parserOptions.otherSettings == ctx.parserOptions.otherSettings
    ensures IsOlderThan(ctx.version, DSTU3) ==>
              r.parserOptions.dontStripVersionsFromReferencesAtPaths == {DEFAULT_PRESERVE_VERSION_REFS_DSTU2}
    ensures ctx.version == DSTU3 ==>
              r.parserOptions.dontStripVersionsFromReferencesAtPaths == {DEFAULT_PRESERVE_VERSION_REFS_DSTU3}
    ensures !IsOlderThan(ctx.version, R4) ==>
              r.parserOptions.dontStripVersionsFromReferencesAtPaths == {DEFAULT_PRESERVE_VERSION_REFS_R4_AND_LATER}
  {
    var path :=
      if IsOlderThan(ctx.version, DSTU3) then DEFAULT_PRESERVE_VERSION_REFS_DSTU2
      else if ctx.version == DSTU3 then DEFAULT_PRESERVE_VERSION_REFS_DSTU3
      else DEFAULT_PRESERVE_VERSION_REFS_R4_AND_LATER;
    ctx.(parserOptions := SetDontStripVersionsFromReferencesAtPaths(ctx.parserOptions, path))
  }

  /** The three cases cover every version and no version falls in two of
      them; exactly one of the three paths is configured, for each version. */
  lemma VersionCasesPartition(v: FhirVersion)
    ensures IsOlderThan(v, DSTU3) || v == DSTU3 || !IsOlderThan(v, R4)
    ensures !(IsOlderThan(v, DSTU3) && v == DSTU3)
    ensures !(IsOlderThan(v, DSTU3) && !IsOlderThan(v, R4))
    ensures !(v == DSTU3 && !IsOlderThan(v, R4))
    ensures |ConfigureFhirContext(FhirContext(v, ParserOptions({}, map[]))).parserOptions.dontStripVersionsFromReferencesAtPaths| == 1
  {
  }

  /** Configuring twice is configuring once. */
  lemma ConfigureIdempotent(ctx: FhirContext)
    ensures ConfigureFhirContext(ConfigureFhirContext(ctx)) == ConfigureFhirContext(ctx)
  {
  }

  /** `fhirContextR4`: a fresh R4 context (`FhirContext.forR4()`, whose
      default options are `defaults`) configured as above. */
  function FhirContextR4(defaults: ParserOptions): (r: FhirContext)
    ensures r.version == R4
    ensures r.parserOptions.dontStripVersionsFromReferencesAtPaths == {DEFAULT_PRESERVE_VERSION_REFS_R4_AND_LATER}
    ensures r.parserOptions.otherSettings == defaults.otherSettings
  {
    ConfigureFhirContext(FhirContext(R4, defaults))
  }
}
