/**
 * Build configuration read from the process environment: the content store
 * URL, the content-ID base, whether this is a primary (non pull request)
 * build, and the reasons a build will not submit to the content store.
 */
module Config {
  import opened Wrappers
  import Paths

  /** `env.get(key)`. */
  function Get(env: map<string, string>, key: string): Option<string>
  {
    if key in env then Some(env[key]) else None
  }

  /** Python truthiness of an optional string: present and non-empty. */
  predicate Present(s: Option<string>)
  {
    s.Some? && s.value != ""
  }

  /** `_normalize`: a present, non-empty URL always ends in exactly the slash it had or one appended. */
  function Normalize(url: Option<string>): (r: Option<string>)
    ensures r.None? <==> url.None?
    ensures r.Some? ==> (r.value == "" <==> url.value == "")
    ensures r.Some? && r.value != "" ==> Paths.EndsWithSlash(r.value)
    ensures r.Some? ==> r.value == url.value || r.value == url.value + "/"
    ensures r.Some? && Paths.EndsWithSlash(url.value) ==> r == url
  {
    if Present(url) && !Paths.EndsWithSlash(url.value) then Some(url.value + "/") else url
  }

  /** Normalizing twice is normalizing once. */
  lemma NormalizeIdempotent(url: Option<string>)
    ensures Normalize(Normalize(url)) == Normalize(url)
  {
  }

  const StoreUrlMissing: string :=
    "CONTENT_STORE_URL is missing. It should be the base URL of the content storage service."
  const IdBaseMissing: string :=
    "CONTENT_ID_BASE is missing. It should be the base URL used to generate IDs for content within this repository."
  const PullRequestBuild: string :=
    "This looks like a pull request build on Travis."

  /** Position of each reason in the fixed reporting order. */
  function Rank(reason: string): nat
  {
    if reason == StoreUrlMissing then 0 else if reason == IdBaseMissing then 1 else 2
  }

  /** One of the three reasons `skip_submit_reasons` can give. */
  predicate IsReason(r: string)
  {
    r == StoreUrlMissing || r == IdBaseMissing || r == PullRequestBuild
  }

  /** Distinct reasons have distinct ranks. */
  lemma RankInjective(x: string, y: string)
    requires IsReason(x) && IsReason(y) && Rank(x) == Rank(y)
    ensures x == y
  {
    assert |StoreUrlMissing| != |IdBaseMissing| && |StoreUrlMissing| != |PullRequestBuild|;
    assert |IdBaseMissing| != |PullRequestBuild|;
  }

  /** In a list of strictly increasing rank, an element after the first has a larger rank than it. */
  lemma AfterFirst(a: seq<string>, r: string)
    requires a != [] && forall i, j :: 0 <= i < j < |a| ==> Rank(a[i]) < Rank(a[j])
    requires r in a[1..]
    ensures Rank(a[0]) < Rank(r)
  {
    var i :| 1 <= i < |a| && a[i] == r;
  }

  /** Lists with the same members are both empty or both not. */
  lemma SameMembersEmpty(a: seq<string>, b: seq<string>)
    requires forall r :: r in a <==> r in b
    ensures a == [] <==> b == []
  {
    if a != [] { assert a[0] in b; }
    if b != [] { assert b[0] in a; }
  }

  /**
   * A list of the three reasons, each at most once and in reporting order,
   * is fixed by which of them it holds: the contract of `SkipSubmitReasons`
   * leaves exactly one possible result.
   */
  lemma {:induction false} ReasonsDetermined(a: seq<string>, b: seq<string>)
    requires forall r :: r in a ==> IsReason(r)
    requires forall i, j :: 0 <= i < j < |a| ==> Rank(a[i]) < Rank(a[j])
    requires forall r :: r in b ==> IsReason(r)
    requires forall i, j :: 0 <= i < j < |b| ==> Rank(b[i]) < Rank(b[j])
    requires forall r :: r in a <==> r in b
    ensures a == b
    decreases |a|
  {
    SameMembersEmpty(a, b);
    if a != [] {
      assert a[0] in b && b[0] in a;
      RankInjective(a[0], b[0]);
      forall r ensures r in a[1..] <==> r in b[1..] {
        if r in a[1..] {
          AfterFirst(a, r);
          assert r in b && r != b[0];
        }
        if r in b[1..] {
          AfterFirst(b, r);
          assert r in a && r != a[0];
        }
      }
      ReasonsDetermined(a[1..], b[1..]);
    }
  }

  class Configuration {
    var contentStoreUrl: Option<string>
    var contentIdBase: Option<string>
    var isPrimary: bool

    /** `Configuration.__init__(env)`. */
    constructor (env: map<string, string>)
      ensures contentStoreUrl == Normalize(Get(env, "CONTENT_STORE_URL"))
      ensures contentIdBase == Normalize(Get(env, "CONTENT_ID_BASE"))
      ensures isPrimary <==> Get(env, "TRAVIS_PULL_REQUEST") == Some("false")
    {
      contentStoreUrl := Normalize(Get(env, "CONTENT_STORE_URL"));
      contentIdBase := Normalize(Get(env, "CONTENT_ID_BASE"));
      isPrimary := Get(env, "TRAVIS_PULL_REQUEST") == Some("false");
    }

    /**
     * `skip_submit_reasons`: one reason per failed condition, in the order
     * store URL, content-ID base, pull request; empty exactly when the build
     * submits.
     */
    method SkipSubmitReasons() returns (reasons: seq<string>)
      ensures reasons == [] <==> Present(contentStoreUrl) && Present(contentIdBase) && isPrimary
      ensures StoreUrlMissing in reasons <==> !Present(contentStoreUrl)
      ensures IdBaseMissing in reasons <==> !Present(contentIdBase)
      ensures PullRequestBuild in reasons <==> !isPrimary
      ensures forall r :: r in reasons ==> IsReason(r)
      ensures |reasons| <= 3
      ensures forall i, j :: 0 <= i < j < |reasons| ==> Rank(reasons[i]) < Rank(reasons[j])
    {
      reasons := [];
      if !Present(contentStoreUrl) {
        reasons := reasons + [StoreUrlMissing];
      }
      if !Present(contentIdBase) {
        reasons := reasons + [IdBaseMissing];
      }
      if !isPrimary {
        reasons := reasons + [PullRequestBuild];
      }
    }
  }
}
