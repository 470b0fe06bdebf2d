/** The edge middleware that moves visitors from the Netlify host to the
    canonical domain with a permanent redirect. */
module Middleware {
  import opened Wrappers
  import opened Text

  const CanonicalOrigin := "https://3mmar.info"
  const CanonicalHost := "3mmar.info"
  const NetlifyMarker := "netlify.app"

  /** 301 Moved Permanently, section 15.4.2 of RFC 9110. */
  const MovedPermanently := 301

  datatype Response = Redirect(location: string, status: int) | Next

  /** The middleware on a request with the given `host` header (absent when
      `None`) and URL path; the query string is not part of `pathname`. */
  function Handle(host: Option<string>, pathname: string): (r: Response)
    ensures r.Redirect? <==> host.Some? && exists i :: OccursAt(host.value, NetlifyMarker, i)
    ensures r.Redirect? ==> r.status == MovedPermanently && r.location == CanonicalOrigin + pathname
  {
    match host
    case None => Next
    case Some(h) =>
      IncludesIffOccurs(h, NetlifyMarker);
      if Includes(h, NetlifyMarker) then Redirect(CanonicalOrigin + pathname, MovedPermanently) else Next
  }

  /** A request without a host header passes through. */
  lemma MissingHostPassesThrough(pathname: string)
    ensures Handle(None, pathname) == Next
  {
  }

  /** Any host with the marker anywhere in it is redirected, e.g. every
      `*.netlify.app` subdomain. */
  lemma NetlifyHostRedirects(pre: string, post: string, pathname: string)
    ensures Handle(Some(pre + NetlifyMarker + post), pathname).Redirect?
  {
    IncludesInContext(pre, NetlifyMarker, post);
  }

  /** The redirect target is the canonical origin followed by exactly the
      original path. */
  lemma RedirectKeepsPath(host: string, pathname: string)
    requires Handle(Some(host), pathname).Redirect?
    ensures var loc := Handle(Some(host), pathname).location;
            |loc| == |CanonicalOrigin| + |pathname| && loc[|CanonicalOrigin|..] == pathname
  {
  }

  /** Following the redirect lands on the canonical host, which passes
      through: the redirect never loops. */
  lemma RedirectTargetPassesThrough(host: string, pathname: string)
    requires Handle(Some(host), pathname).Redirect?
    ensures Handle(Some(CanonicalHost), pathname) == Next
  {
    assert !Includes(CanonicalHost, NetlifyMarker);
  }
}
