/** Rate-limit resources: the names of GitHub's independently limited quota
    buckets, as carried by the `X-RateLimit-Resource` response header. */
module Resources {
  import opened Http

  /** Any string is a resource at the type level; only the known ones are valid. */
  type Resource = string

  const Core: Resource := "core"
  const Search: Resource := "search"
  const GraphQL: Resource := "graphql"
  const IntegrationManifest: Resource := "integration_manifest"
  const SourceImport: Resource := "source_import"
  const CodeScanningUpload: Resource := "code_scanning_upload"
  const CodeScanningAutofix: Resource := "code_scanning_autofix"
  const ActionsRunnerRegistration: Resource := "actions_runner_registration"
  const Scim: Resource := "scim"
  const DependencySnapshots: Resource := "dependency_snapshots"
  const AuditLog: Resource := "audit_log"
  const AuditLogStreaming: Resource := "audit_log_streaming"
  const CodeSearch: Resource := "code_search"

  /** The known resources, in declaration order. */
  const ValidResources: seq<Resource> := [
    Core, Search, GraphQL,
    IntegrationManifest, SourceImport,
    CodeScanningUpload, CodeScanningAutofix,
    ActionsRunnerRegistration, Scim,
    DependencySnapshots, AuditLog,
    AuditLogStreaming, CodeSearch
  ]

  /** Canonical form of the `X-RateLimit-Resource` header key. */
  const ResourceHeader: string := "X-Ratelimit-Resource"

  /** `fmt.Stringer`: the resource's own name, unchanged. */
  function String(r: Resource): (s: string)
    ensures s == r
  {
    r
  }

  /** A resource is valid exactly when it is one of the known resources. */
  function Valid(r: Resource): (b: bool)
    ensures b <==> exists i | 0 <= i < |ValidResources| :: ValidResources[i] == r
  {
    r in ValidResources
  }

  /** The resource named by a response's headers; "" when the header is absent. */
  function ParseResource(h: Headers): (r: Resource)
    ensures ResourceHeader !in h ==> r == ""
    ensures ResourceHeader in h && h[ResourceHeader] != [] ==> r == h[ResourceHeader][0]
  {
    Get(h, ResourceHeader)
  }

  /** The list holds thirteen pairwise distinct names, and validity is
      membership in exactly the declared constants. */
  lemma ValidResourcesDistinct()
    ensures |ValidResources| == 13
    ensures forall i, j | 0 <= i < j < |ValidResources| :: ValidResources[i] != ValidResources[j]
  {
  }

  lemma ValidIsDeclared(r: Resource)
    ensures Valid(r) <==>
      r == Core || r == Search || r == GraphQL || r == IntegrationManifest ||
      r == SourceImport || r == CodeScanningUpload || r == CodeScanningAutofix ||
      r == ActionsRunnerRegistration || r == Scim || r == DependencySnapshots ||
      r == AuditLog || r == AuditLogStreaming || r == CodeSearch
  {
  }

  /** The empty name and an unknown name are not valid. */
  lemma InvalidExamples()
    ensures !Valid("") && !Valid("invalid")
  {
  }
}
