/**
 * Where a request goes: `posixpath.join`, the client's `url_api` and the
 * resolution of a resource name against it.
 */
module Urls {
  import opened Text

  /**
   * `posixpath.join(a, b)`: an absolute `b` replaces `a`; otherwise `b` is
   * appended, with one `/` inserted unless `a` is empty or already ends in one.
   */
  function PosixJoin(a: string, b: string): (r: string)
    ensures StartsWith(b, "/") ==> r == b
    ensures !StartsWith(b, "/") ==> StartsWith(r, a) && EndsWith(r, b)
    ensures !StartsWith(b, "/") && a != "" ==> EndsWith(r[..|r| - |b|], "/")
    ensures !StartsWith(b, "/") && (a == "" || EndsWith(a, "/")) ==> |r| == |a| + |b|
    ensures !StartsWith(b, "/") && a != "" && !EndsWith(a, "/") ==> |r| == |a| + 1 + |b|
  {
    if StartsWith(b, "/") then b
    else if a == "" || EndsWith(a, "/") then a + b
    else a + "/" + b
  }

  /** `"api/{0}/".format(api_version)` */
  function ApiSuffix(version: int): string
  {
    "api/" + IntToDecimal(version) + "/"
  }

  /**
   * `url_api`: the base URL joined with `api/<version>/`.  It always ends in
   * `/`, begins with the base URL, and carries the version's decimal text.
   */
  function ApiRoot(url: string, version: int): (r: string)
    ensures StartsWith(r, url) && EndsWith(r, ApiSuffix(version))
    ensures EndsWith(r, "/")
    ensures url == "" || EndsWith(url, "/") ==> r == url + ApiSuffix(version)
    ensures url != "" && !EndsWith(url, "/") ==> r == url + "/" + ApiSuffix(version)
  {
    var suffix := ApiSuffix(version);
    assert suffix[0] == 'a' && !StartsWith(suffix, "/");
    PosixJoin(url, suffix)
  }

  /**
   * `_request_api`'s target: a resource starting with `http` is a full URL
   * already; anything else is joined to `url_api`.
   */
  function ResolveUrl(urlApi: string, resource: string): (r: string)
    ensures StartsWith(resource, "http") ==> r == resource
    ensures !StartsWith(resource, "http") && StartsWith(resource, "/") ==> r == resource
    ensures !StartsWith(resource, "http") && !StartsWith(resource, "/") && (urlApi == "" || EndsWith(urlApi, "/")) ==>
      r == urlApi + resource
    ensures !StartsWith(resource, "http") && !StartsWith(resource, "/") && urlApi != "" && !EndsWith(urlApi, "/") ==>
      r == urlApi + "/" + resource
  {
    if StartsWith(resource, "http") then resource else PosixJoin(urlApi, resource)
  }

  /**
   * A relative resource is found under `url_api`: the resolved URL splits
   * back into `url_api` and the resource; a full URL is kept as given; an
   * absolute path discards `url_api`.
   */
  lemma ResolveSplits(urlApi: string, resource: string)
    ensures StartsWith(resource, "http") ==> ResolveUrl(urlApi, resource) == resource
    ensures !StartsWith(resource, "http") && StartsWith(resource, "/") ==> ResolveUrl(urlApi, resource) == resource
    ensures !StartsWith(resource, "http") && !StartsWith(resource, "/") && EndsWith(urlApi, "/") ==>
      var r := ResolveUrl(urlApi, resource);
      |r| == |urlApi| + |resource| && r[..|urlApi|] == urlApi && r[|urlApi|..] == resource
  {
  }

  /** With the default base URL and version 0, `inboxes` resolves to `/api/0/inboxes` on localhost. */
  lemma DefaultInboxesUrl()
    ensures ResolveUrl(ApiRoot("http://localhost:5000/", 0), "inboxes") == "http://localhost:5000/api/0/inboxes"
  {
    DefaultRoot();
    InboxesUnder("http://localhost:5000/api/0/");
  }

  /** The default base URL with version 0 gives `http://localhost:5000/api/0/`. */
  lemma DefaultRoot()
    ensures ApiRoot("http://localhost:5000/", 0) == "http://localhost:5000/api/0/"
  {
    assert IntToDecimal(0) == "0";
    assert ApiSuffix(0) == "api/0/";
  }

  /** `inboxes` is appended to a `url_api` that ends in `/`. */
  lemma InboxesUnder(root: string)
    requires EndsWith(root, "/")
    ensures ResolveUrl(root, "inboxes") == root + "inboxes"
  {
    assert "inboxes"[0] == 'i';
  }
}
