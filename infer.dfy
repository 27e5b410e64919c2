/** Guessing which rate-limit resource a request will consume, from its method
    and URL path. */
module Infer {
  import opened Resources

  /** `strings.HasPrefix`. */
  predicate HasPrefix(s: string, prefix: string)
  {
    |prefix| <= |s| && s[..|prefix|] == prefix
  }

  /** `strings.HasSuffix`. */
  predicate HasSuffix(s: string, suffix: string)
  {
    |suffix| <= |s| && s[|s| - |suffix|..] == suffix
  }

  /** `strings.Contains`: `sub` occurs somewhere in `s`. */
  predicate Contains(s: string, sub: string)
    decreases |s|
  {
    HasPrefix(s, sub) || (s != [] && Contains(s[1..], sub))
  }

  /** `strings.TrimPrefix`: drop `prefix` once when `s` starts with it. */
  function TrimPrefix(s: string, prefix: string): (r: string)
    ensures HasPrefix(s, prefix) ==> prefix + r == s
    ensures !HasPrefix(s, prefix) ==> r == s
  {
    if HasPrefix(s, prefix) then s[|prefix|..] else s
  }

  const Post: string := "POST"
  /** Path prefix of GitHub Enterprise Server's REST API. */
  const EnterprisePrefix: string := "/api/v3"

  predicate IsSarifUpload(httpMethod: string, p: string)
  {
    HasPrefix(p, "/repos/") && HasSuffix(p, "/code-scanning/sarifs") && httpMethod == Post
  }

  predicate IsAutofix(httpMethod: string, p: string)
  {
    HasPrefix(p, "/repos/") && Contains(p, "/code-scanning/alerts/") && HasSuffix(p, "/autofix") && httpMethod == Post
  }

  predicate IsRunnerRegistration(httpMethod: string, p: string)
  {
    HasPrefix(p, "/actions/runners/registration-token") && httpMethod == Post
  }

  predicate IsAuditLogOwner(p: string)
  {
    HasPrefix(p, "/enterprises/") || HasPrefix(p, "/organizations/")
  }

  /** The classification switch on an already trimmed path: the cases are tried
      in order and the first that matches decides; anything unmatched is the
      core API. */
  function Classify(httpMethod: string, p: string): Resource
  {
    if HasPrefix(p, "/search/") then
      (if p == "/search/code" then CodeSearch else Search)
    else if p == "/graphql" then GraphQL
    else if HasPrefix(p, "/app-manifests/") then IntegrationManifest
    else if IsSarifUpload(httpMethod, p) then CodeScanningUpload
    else if IsAutofix(httpMethod, p) then CodeScanningAutofix
    else if IsRunnerRegistration(httpMethod, p) then ActionsRunnerRegistration
    else if HasPrefix(p, "/scim/v2/") then Scim
    else if HasPrefix(p, "/repos/") && Contains(p, "/dependency-graph/") then DependencySnapshots
    else if IsAuditLogOwner(p) && HasSuffix(p, "/audit-log") then AuditLog
    else if IsAuditLogOwner(p) && Contains(p, "/audit-log/streams") then AuditLogStreaming
    else Core
  }

  /** `InferResource`: strip one leading "/api/v3" and classify. The result is
      always one of the known resources, never the empty name. */
  function InferResource(httpMethod: string, path: string): (r: Resource)
    ensures Valid(r) && r != ""
  {
    Classify(httpMethod, TrimPrefix(path, EnterprisePrefix))
  }

  /** The leading "/api/v3" is removed exactly once before classifying. */
  lemma {:induction false} EnterprisePrefixStrippedOnce(httpMethod: string, p: string)
    ensures InferResource(httpMethod, EnterprisePrefix + p) == Classify(httpMethod, p)
  {
    var s := EnterprisePrefix + p;
    assert s[..|EnterprisePrefix|] == EnterprisePrefix;
    assert s[|EnterprisePrefix|..] == p;
  }

  /** The three POST-only cases never fire for any other method. */
  lemma PostOnlyCases(httpMethod: string, path: string)
    requires httpMethod != Post
    ensures InferResource(httpMethod, path) != CodeScanningUpload
    ensures InferResource(httpMethod, path) != CodeScanningAutofix
    ensures InferResource(httpMethod, path) != ActionsRunnerRegistration
  {
  }

  /** The characters that tell the classified path prefixes apart. */
  lemma PrefixShapes(p: string)
    ensures HasPrefix(p, "/search/") ==> |p| > 2 && p[1] == 's' && p[2] == 'e'
    ensures HasPrefix(p, "/app-manifests/") ==> |p| > 2 && p[1] == 'a' && p[2] == 'p'
    ensures HasPrefix(p, "/repos/") ==> |p| > 2 && p[1] == 'r'
    ensures HasPrefix(p, "/actions/runners/registration-token") ==> |p| > 2 && p[1] == 'a' && p[2] == 'c'
    ensures HasPrefix(p, "/scim/v2/") ==> |p| > 2 && p[1] == 's' && p[2] == 'c'
    ensures HasPrefix(p, "/enterprises/") ==> |p| > 2 && p[1] == 'e'
    ensures HasPrefix(p, "/organizations/") ==> |p| > 2 && p[1] == 'o'
  {
    PrefixChars(p, "/search/");
    PrefixChars(p, "/app-manifests/");
    PrefixChars(p, "/repos/");
    PrefixChars(p, "/actions/runners/registration-token");
    PrefixChars(p, "/scim/v2/");
    PrefixChars(p, "/enterprises/");
    PrefixChars(p, "/organizations/");
  }

  /** The last character of each classified path suffix. */
  lemma SuffixShapes(p: string)
    ensures HasSuffix(p, "/code-scanning/sarifs") ==> p != [] && p[|p| - 1] == 's'
    ensures HasSuffix(p, "/autofix") ==> p != [] && p[|p| - 1] == 'x'
    ensures HasSuffix(p, "/audit-log") ==> p != [] && p[|p| - 1] == 'g'
  {
    SuffixChar(p, "/code-scanning/sarifs");
    SuffixChar(p, "/autofix");
    SuffixChar(p, "/audit-log");
  }

  lemma PrefixChars(p: string, pre: string)
    requires |pre| > 2
    ensures HasPrefix(p, pre) ==> |p| > 2 && p[1] == pre[1] && p[2] == pre[2]
  {
    if HasPrefix(p, pre) {
      assert p[1] == p[..|pre|][1] && p[2] == p[..|pre|][2];
    }
  }

  lemma SuffixChar(p: string, suf: string)
    requires suf != []
    ensures HasSuffix(p, suf) ==> p != [] && p[|p| - 1] == suf[|suf| - 1]
  {
    if HasSuffix(p, suf) {
      assert p[|p| - 1] == p[|p| - |suf|..][|suf| - 1];
    }
  }

  /** Each resource is returned exactly for the requests described below,
      whatever the order of the cases, because the earlier cases' path tests
      exclude each other. */
  lemma ClassifyCodeSearch(httpMethod: string, p: string)
    ensures Classify(httpMethod, p) == CodeSearch <==> p == "/search/code"
  {
    PrefixShapes(p);
    SuffixShapes(p);
  }

  lemma ClassifySearch(httpMethod: string, p: string)
    ensures Classify(httpMethod, p) == Search <==> HasPrefix(p, "/search/") && p != "/search/code"
  {
    PrefixShapes(p);
    SuffixShapes(p);
  }

  lemma ClassifyGraphQL(httpMethod: string, p: string)
    ensures Classify(httpMethod, p) == GraphQL <==> p == "/graphql"
  {
    PrefixShapes(p);
    SuffixShapes(p);
  }

  lemma ClassifyIntegrationManifest(httpMethod: string, p: string)
    ensures Classify(httpMethod, p) == IntegrationManifest <==> HasPrefix(p, "/app-manifests/")
  {
    PrefixShapes(p);
    SuffixShapes(p);
  }

  lemma ClassifyCodeScanningUpload(httpMethod: string, p: string)
    ensures Classify(httpMethod, p) == CodeScanningUpload <==> IsSarifUpload(httpMethod, p)
  {
    PrefixShapes(p);
    SuffixShapes(p);
  }

  lemma ClassifyCodeScanningAutofix(httpMethod: string, p: string)
    ensures Classify(httpMethod, p) == CodeScanningAutofix <==> IsAutofix(httpMethod, p)
  {
    PrefixShapes(p);
    SuffixShapes(p);
  }

  lemma ClassifyActionsRunnerRegistration(httpMethod: string, p: string)
    ensures Classify(httpMethod, p) == ActionsRunnerRegistration <==> IsRunnerRegistration(httpMethod, p)
  {
    PrefixShapes(p);
    SuffixShapes(p);
  }

  lemma ClassifyScim(httpMethod: string, p: string)
    ensures Classify(httpMethod, p) == Scim <==> HasPrefix(p, "/scim/v2/")
  {
    PrefixShapes(p);
    SuffixShapes(p);
  }

  lemma ClassifyDependencySnapshots(httpMethod: string, p: string)
    ensures Classify(httpMethod, p) == DependencySnapshots <==>
      HasPrefix(p, "/repos/") && Contains(p, "/dependency-graph/") &&
      !IsSarifUpload(httpMethod, p) && !IsAutofix(httpMethod, p)
  {
    PrefixShapes(p);
    SuffixShapes(p);
  }

  lemma ClassifyAuditLog(httpMethod: string, p: string)
    ensures Classify(httpMethod, p) == AuditLog <==> IsAuditLogOwner(p) && HasSuffix(p, "/audit-log")
  {
    PrefixShapes(p);
    SuffixShapes(p);
  }

  lemma ClassifyAuditLogStreaming(httpMethod: string, p: string)
    ensures Classify(httpMethod, p) == AuditLogStreaming <==>
      IsAuditLogOwner(p) && Contains(p, "/audit-log/streams") && !HasSuffix(p, "/audit-log")
  {
    PrefixShapes(p);
    SuffixShapes(p);
  }

  lemma ClassifyNeverSourceImport(httpMethod: string, p: string)
    ensures Classify(httpMethod, p) != SourceImport
  {
    PrefixShapes(p);
    SuffixShapes(p);
  }

  /** Every character of a contained string occurs in the containing one. */
  lemma {:induction false} ContainsElement(s: string, sub: string, k: nat)
    requires Contains(s, sub) && k < |sub|
    ensures sub[k] in s
    decreases |s|
  {
    if HasPrefix(s, sub) {
      assert s[k] == sub[k];
    } else {
      ContainsElement(s[1..], sub, k);
      assert sub[k] in s[1..];
    }
  }

  /** A path that does not start with "/a" is classified as it is. */
  lemma NoEnterprisePrefix(httpMethod: string, p: string)
    requires |p| > 1 && p[1] != 'a'
    ensures InferResource(httpMethod, p) == Classify(httpMethod, p)
  {
    PrefixChars(p, EnterprisePrefix);
  }

  /** Classifications of concrete requests; each path is the parameter its
      precondition names. */
  lemma InferCodeSearchExample(p: string, q: string)
    requires p == "/search/code" && q == "/api/v3/search/code"
    ensures InferResource("GET", p) == CodeSearch
    ensures InferResource("GET", q) == CodeSearch
  {
    assert q == EnterprisePrefix + p;
    NoEnterprisePrefix("GET", p);
    EnterprisePrefixStrippedOnce("GET", p);
    ClassifyCodeSearch("GET", p);
  }

  lemma InferSearchExample(p: string)
    requires p == "/search/users"
    ensures InferResource("GET", p) == Search
  {
    assert p[..8] == "/search/";
    NoEnterprisePrefix("GET", p);
    ClassifySearch("GET", p);
  }

  lemma InferCoreExample(p: string)
    requires p == "/users/bored-engineer"
    ensures InferResource("GET", p) == Core
  {
    assert p[1] == 'u';
    InferCoreByFirstLetter("GET", p);
  }

  lemma InferGraphQLExample(p: string)
    requires p == "/graphql"
    ensures InferResource("POST", p) == GraphQL
  {
    NoEnterprisePrefix("POST", p);
    ClassifyGraphQL("POST", p);
  }

  /** Only one "/api/v3" is stripped: "/api/v3/api/v3/graphql" is the core
      API, not GraphQL. */
  lemma InferStripsOnceExample(p: string)
    requires p == "/api/v3/graphql"
    ensures InferResource("POST", EnterprisePrefix + p) == Core
  {
    EnterprisePrefixStrippedOnce("POST", p);
    assert p[1] == 'a' && p[2] == 'p' && p[3] == 'i';
    ClassifyApiCore("POST", p);
  }

  /** A path left starting with "/ap" but not "/app" (such as a second
      "/api/v3") matches no case and is the core API. */
  lemma ClassifyApiCore(httpMethod: string, p: string)
    requires |p| > 3 && p[1] == 'a' && p[2] == 'p' && p[3] != 'p'
    ensures Classify(httpMethod, p) == Core
  {
    PrefixShapes(p);
    NotPrefixAt(p, "/app-manifests/", 3);
  }

  lemma NotPrefixAt(p: string, pre: string, i: nat)
    requires i < |pre| && i < |p| && p[i] != pre[i]
    ensures !HasPrefix(p, pre)
  {
  }

  /** A path whose first segment starts with none of the letters the switch
      looks for (and which is not under "/api/v3") is the core API. */
  lemma InferCoreByFirstLetter(httpMethod: string, p: string)
    requires |p| > 1 && p[1] !in "sareo" && p != "/graphql"
    ensures InferResource(httpMethod, p) == Core
  {
    NoEnterprisePrefix(httpMethod, p);
    PrefixShapes(p);
    SuffixShapes(p);
  }

  /** The SARIF upload path is its own resource for POST only; for any other
      method it falls through to the core API. */
  lemma InferSarifPostExample(p: string)
    requires p == "/repos/o/r/code-scanning/sarifs"
    ensures InferResource("POST", p) == CodeScanningUpload
  {
    NoEnterprisePrefix("POST", p);
    SarifPathShape(p);
    ClassifyCodeScanningUpload("POST", p);
  }

  lemma InferSarifGetExample(p: string)
    requires p == "/repos/o/r/code-scanning/sarifs"
    ensures InferResource("GET", p) == Core
  {
    NoEnterprisePrefix("GET", p);
    SarifPathShape(p);
    SarifPathNoDependencyGraph(p);
    ClassifyRepositoryCore("GET", p);
  }

  /** A repository path requested with any method but POST is the core API
      unless it reaches the dependency graph. */
  lemma ClassifyRepositoryCore(httpMethod: string, p: string)
    requires HasPrefix(p, "/repos/") && httpMethod != Post && !Contains(p, "/dependency-graph/")
    ensures Classify(httpMethod, p) == Core
  {
    PrefixShapes(p);
    SuffixShapes(p);
  }

  lemma SarifPathNoDependencyGraph(p: string)
    requires p == "/repos/o/r/code-scanning/sarifs"
    ensures !Contains(p, "/dependency-graph/")
  {
    var sub := "/dependency-graph/";
    assert sub[10] == 'y';
    assert 'y' !in p;
    if Contains(p, sub) {
      ContainsElement(p, sub, 10);
    }
  }

  lemma SarifPathShape(p: string)
    requires p == "/repos/o/r/code-scanning/sarifs"
    ensures HasPrefix(p, "/repos/") && HasSuffix(p, "/code-scanning/sarifs")
  {
    assert p[..7] == "/repos/";
    assert p[|p| - 21..] == "/code-scanning/sarifs";
  }
}
