/** The static-site worker `client/dist/_worker.js`: requests whose path starts with `/api`,
    `/socket.io` or `/uploads` go to the API host on a rewritten copy of their URL; every other
    request goes to the static assets unchanged. The outgoing `fetch` calls are not modelled;
    the worker's answer is where the request goes. */
module EdgeWorker {
  import opened JsText

  const ApiHost := "chillsync-api.workers.dev"

  /** The URL components the worker reads or writes. */
  datatype UrlParts = UrlParts(protocol: string, hostname: string, port: string, pathname: string, search: string)

  /** The path test: a plain `startsWith`, so `/apix` and `/uploadsfoo` pass as well. */
  predicate Forwarded(pathname: string)
  {
    StartsWith(pathname, "/api") || StartsWith(pathname, "/socket.io") || StartsWith(pathname, "/uploads")
  }

  /** A `URL` object, whose setters the worker uses. */
  class Url {
    var protocol: string
    var hostname: string
    var port: string
    var pathname: string
    var search: string

    function Parts(): UrlParts
      reads this
    {
      UrlParts(protocol, hostname, port, pathname, search)
    }

    constructor (parts: UrlParts)
      ensures Parts() == parts
    {
      protocol, hostname, port, pathname, search := parts.protocol, parts.hostname, parts.port, parts.pathname, parts.search;
    }
  }

  /** `fetch(request)`: a forwarded request gets a fresh URL with the API host and no port,
      path, query and scheme kept; any other is passed to the assets as it came. */
  method Fetch(request: Url) returns (target: Url, forwarded: bool)
    ensures forwarded <==> Forwarded(request.pathname)
    ensures forwarded ==>
              fresh(target) && target.Parts() == request.Parts().(hostname := ApiHost, port := "")
    ensures !forwarded ==> target == request
  {
    if StartsWith(request.pathname, "/api") || StartsWith(request.pathname, "/socket.io") || StartsWith(request.pathname, "/uploads") {
      target := new Url(request.Parts());
      target.hostname := ApiHost;
      target.port := "";
      return target, true;
    }
    return request, false;
  }

  /** Only the prefix matters: whatever follows a forwarded path, it stays forwarded, so `/apix`
      is forwarded, while `/ap` and `/` go to the assets. */
  lemma PrefixOnly(pathname: string, rest: string)
    requires Forwarded(pathname)
    ensures Forwarded(pathname + rest)
    ensures Forwarded("/apix") && !Forwarded("/ap") && !Forwarded("/")
  {
    assert "/apix"[..4] == "/api";
    var s := pathname + rest;
    if StartsWith(pathname, "/api") {
      assert s[..4] == pathname[..4];
    } else if StartsWith(pathname, "/socket.io") {
      assert s[..10] == pathname[..10];
    } else {
      assert s[..8] == pathname[..8];
    }
  }

  /** Sending a forwarded request through the worker again changes nothing more: the rewrite is
      idempotent and keeps the request forwarded. */
  method ForwardTwice(parts: UrlParts) returns (once: UrlParts, twice: UrlParts)
    requires Forwarded(parts.pathname)
    ensures once == twice && once.hostname == ApiHost && once.port == ""
    ensures once.pathname == parts.pathname && once.search == parts.search
  {
    var request := new Url(parts);
    var first, f1 := Fetch(request);
    var second, f2 := Fetch(first);
    once, twice := first.Parts(), second.Parts();
  }
}
