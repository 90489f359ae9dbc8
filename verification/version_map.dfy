/** The two constant tables that tie a user's HSPM label to a catalog file and a QC element version. */
module VersionMap {
  import opened Wrappers

  /** `HSPM_VERSION_MAP`: user-facing HSPM label to the catalog database file. */
  const HspmVersionMap: map<string, string> := map[
    "HSPM 2022.1" := "RTDPointCatalog_2022_1.db",
    "HSPM 2023.0" := "RTDPointCatalog_2023_0.db",
    "HSPM 2023.1" := "RTDPointCatalog_2023_1.db",
    "HSPM 2025.0" := "RTDPointCatalog_2025_0.db",
    "HSPM 2026.0" := "RTDPointCatalog_2026_0.db"
  ]

  /** `QC_ELEMENT_MAPPER`: catalog database file to the QC element's shared-rules version. */
  const QcElementMapper: map<string, string> := map[
    "RTDPointCatalog_2022_1.db" := "TnAShared2022_1_001",
    "RTDPointCatalog_2023_0.db" := "TnAShared2023_0_001",
    "RTDPointCatalog_2023_1.db" := "TnAShared2023_1_001",
    "RTDPointCatalog_2025_0.db" := "TnAShared2025_1_004",
    "RTDPointCatalog_2026_0.db" := "TnAShared2026_0_010"
  ]

  /** The QC version the exporter writes for a catalog file it does not know. */
  const QcDefault: string := "TnAShared2023_1_001"

  /** The store a request is filed under when its label is not mapped. */
  const DefaultStore: string := "default_db"

  /** `HSPM_VERSION_MAP.get(hspm)`, where a missing or null label finds nothing. */
  function MappedCatalog(hspm: Option<string>): (r: Option<string>)
    ensures r.Some? <==> hspm.Some? && hspm.value in HspmVersionMap
    ensures r.Some? ==> r.value == HspmVersionMap[hspm.value] && r.value in QcElementMapper
  {
    match hspm
    case Some(l) =>
      if l in HspmVersionMap then
        MappedValuesAreQcKeys();
        Some(HspmVersionMap[l])
      else None
    case None => None
  }

  /** The per-request store: the mapped catalog file, else `"default_db"`. */
  function StoreFor(hspm: Option<string>): (r: string)
    ensures hspm.Some? && hspm.value in HspmVersionMap ==> r == HspmVersionMap[hspm.value]
    ensures !(hspm.Some? && hspm.value in HspmVersionMap) ==> r == DefaultStore
    ensures r == DefaultStore || r in QcElementMapper
  {
    match MappedCatalog(hspm)
    case Some(f) => f
    case None => DefaultStore
  }

  /** `QC_ELEMENT_MAPPER.get(file, "TnAShared2023_1_001")`. */
  function QcVersion(file: string): (r: string)
    ensures file in QcElementMapper ==> r == QcElementMapper[file]
    ensures file !in QcElementMapper ==> r == QcDefault
  {
    if file in QcElementMapper then QcElementMapper[file] else QcDefault
  }

  /** Exactly five labels are mapped. */
  lemma FiveLabels()
    ensures HspmVersionMap.Keys ==
      {"HSPM 2022.1", "HSPM 2023.0", "HSPM 2023.1", "HSPM 2025.0", "HSPM 2026.0"}
    ensures |HspmVersionMap| == 5
  {
    assert HspmVersionMap.Keys ==
      {"HSPM 2022.1", "HSPM 2023.0", "HSPM 2023.1", "HSPM 2025.0", "HSPM 2026.0"};
  }

  /** Distinct labels select distinct catalog files. */
  lemma MapIsInjective(a: string, b: string)
    requires a in HspmVersionMap && b in HspmVersionMap && a != b
    ensures HspmVersionMap[a] != HspmVersionMap[b]
  {}

  /** Every mapped catalog file has its own QC entry, so a mapped hspm never falls back to the default. */
  lemma MappedValuesAreQcKeys()
    ensures forall l :: l in HspmVersionMap ==> HspmVersionMap[l] in QcElementMapper
  {}

  /** The default catalog file's QC version. */
  lemma DefaultCatalogQc()
    ensures QcVersion("RTDPointCatalog_2025_0.db") == "TnAShared2025_1_004"
  {}
}
