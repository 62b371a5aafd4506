/** Resolving a packaged asset to a URL: leading slashes are dropped, then the
    extension runtime builds the URL, or, where no runtime is present (the
    local development server), the path is made root-relative. The runtime's
    `getURL` is a parameter: `None` where `chrome.runtime` is unavailable. */
module AssetPaths {
  import opened Wrappers

  /** `n` slashes */
  function Slashes(n: nat): (s: string)
    ensures |s| == n && forall i :: 0 <= i < n ==> s[i] == '/'
  {
    if n == 0 then [] else ['/'] + Slashes(n - 1)
  }

  /** `assetPath.replace(/^\/+/, '')` */
  function StripLeadingSlashes(p: string): string
    decreases |p|
  {
    if p != [] && p[0] == '/' then StripLeadingSlashes(p[1..]) else p
  }

  /** The path is its leading run of slashes followed by the result, which
      does not start with a slash. */
  lemma {:induction false} StripLeadingSlashesSpec(p: string)
    ensures var r := StripLeadingSlashes(p);
      && |r| <= |p|
      && p == Slashes(|p| - |r|) + r
      && (r == [] || r[0] != '/')
    decreases |p|
  {
    if p != [] && p[0] == '/' {
      StripLeadingSlashesSpec(p[1..]);
      var r := StripLeadingSlashes(p[1..]);
      assert p == ['/'] + p[1..];
      assert Slashes(|p| - |r|) == ['/'] + Slashes(|p| - 1 - |r|);
    }
  }

  /** Slashes in front change nothing: the interior is kept exactly. */
  lemma {:induction false} StripAfterSlashes(n: nat, q: string)
    requires q == [] || q[0] != '/'
    ensures StripLeadingSlashes(Slashes(n) + q) == q
    decreases n
  {
    if n > 0 {
      var s := Slashes(n) + q;
      assert s[1..] == Slashes(n - 1) + q;
      StripAfterSlashes(n - 1, q);
    }
  }

  /** `getExtensionAssetUrl(assetPath)` */
  function GetExtensionAssetUrl(assetPath: string, getUrl: Option<string -> string>): string {
    var normalized := StripLeadingSlashes(assetPath);
    match getUrl
    case Some(runtimeUrl) => runtimeUrl(normalized)
    case None => "/" + normalized
  }

  /** The runtime is handed the path without its leading slashes; the
      fallback is exactly one slash before it. */
  lemma AssetUrlShape(p: string, runtimeUrl: string -> string)
    ensures GetExtensionAssetUrl(p, Some(runtimeUrl)) == runtimeUrl(StripLeadingSlashes(p))
    ensures var u := GetExtensionAssetUrl(p, None);
      && u[0] == '/' && (|u| == 1 || u[1] != '/')
      && |u| <= |p| + 1
      && p == Slashes(|p| - (|u| - 1)) + u[1..]
  {
    StripLeadingSlashesSpec(p);
    var u := GetExtensionAssetUrl(p, None);
    assert u[1..] == StripLeadingSlashes(p);
  }

  /** Paths that differ only in their leading slashes resolve alike. */
  lemma LeadingSlashesIgnored(n: nat, p: string, getUrl: Option<string -> string>)
    ensures GetExtensionAssetUrl(Slashes(n) + p, getUrl) == GetExtensionAssetUrl(p, getUrl)
  {
    StripLeadingSlashesSpec(p);
    var r := StripLeadingSlashes(p);
    var k := |p| - |r|;
    assert Slashes(n) + p == Slashes(n + k) + r by {
      SlashesAppend(n, k);
    }
    StripAfterSlashes(n + k, r);
  }

  lemma {:induction false} SlashesAppend(m: nat, n: nat)
    ensures Slashes(m) + Slashes(n) == Slashes(m + n)
    decreases m
  {
    if m > 0 {
      SlashesAppend(m - 1, n);
      assert Slashes(m) + Slashes(n) == ['/'] + (Slashes(m - 1) + Slashes(n));
    }
  }

  /** Resolving the fallback URL again gives it back unchanged. */
  lemma FallbackIdempotent(p: string)
    ensures GetExtensionAssetUrl(GetExtensionAssetUrl(p, None), None) == GetExtensionAssetUrl(p, None)
  {
    var r := StripLeadingSlashes(p);
    StripLeadingSlashesSpec(p);
    assert "/" + r == Slashes(1) + r;
    StripAfterSlashes(1, r);
  }
}
