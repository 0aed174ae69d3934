/** How the middleware turns an inbound request into the upstream one: the
    copied header map with `host` overwritten, and the target URL followed
    by the request path. */
module Forwarding {
  import opened Types
  import opened Text

  const HostKey := "host"

  /** The `host` value: the target URL after removing each `"http://"` and
      then each `"https://"` that the left-to-right scan of `str.replace`
      finds. Removal is not limited to a leading scheme, and the result can
      still contain one (`StripCanLeaveScheme`). */
  function StripScheme(target: string): (host: string)
    ensures |host| <= |target|
    ensures !Contains(target, "http://") && !Contains(target, "https://") ==> host == target
  {
    Replace(Replace(target, "http://", ""), "https://", "")
  }

  /** A plain-HTTP target loses exactly its scheme; whatever follows it,
      port and path included, becomes the `host` value. */
  lemma StripHttp(a: string)
    requires !Contains(a, "http://") && !Contains(a, "https://")
    ensures StripScheme("http://" + a) == a
  {
    ReplaceLeading(a, "http://", "");
    assert Replace("http://" + a, "http://", "") == "" + a == a;
  }

  /** An HTTPS target survives the first `replace` and loses its scheme in
      the second. */
  lemma StripHttps(a: string)
    requires !Contains(a, "http://") && !Contains(a, "https://")
    ensures StripScheme("https://" + a) == a
  {
    HttpsPrefixAddsNoHttp(a);
    ReplaceLeading(a, "https://", "");
    assert Replace("https://" + a, "https://", "") == "" + a == a;
  }

  /** The first `replace` on `"hthttp://tp://" + a` keeps `ht`, removes the
      one occurrence it finds at offset 2, and keeps the rest. */
  lemma FirstReplaceJoins(a: string)
    requires !Contains(a, "http://")
    ensures Replace("hthttp://tp://" + a, "http://", "") == "http://" + a
  {
    var http, tail := "http://", "tp://" + a;
    var rest := http + tail;
    SplitJoinedTarget(a, rest, tail);
    NoOccurrenceAtFront(rest);
    ReplaceSkipTwo('h', 't', rest, http);
    ContainsAfterPrefix("tp://", a, http);
    ReplaceLeading(tail, http, "");
    assert "" + tail == tail;
  }

  /** The target split around its occurrence of `http://`, and the host value
      it leaves. */
  lemma SplitJoinedTarget(a: string, rest: string, tail: string)
    requires tail == "tp://" + a && rest == "http://" + tail
    ensures "hthttp://tp://" + a == ['h', 't'] + rest
    ensures ['h', 't'] + tail == "http://" + a
  {
  }

  /** Neither of the first two characters of `ht` + `rest` begins `http://`
      when `rest` starts with `h`. */
  lemma NoOccurrenceAtFront(rest: string)
    requires |rest| > 0 && rest[0] == 'h'
    ensures !StartsWith(['h', 't'] + rest, "http://")
    ensures !StartsWith(['t'] + rest, "http://")
  {
    assert (['h', 't'] + rest)[2] == 'h';
    assert (['t'] + rest)[0] == 't';
  }

  /** `"http://" + a` holds no `https://` when `a` holds none. */
  lemma NoHttpsAfterHttp(a: string)
    requires !Contains(a, "https://")
    ensures !Contains("http://" + a, "https://")
  {
    var https, s := "https://", "http://" + a;
    assert !StartsWith(s, https) by {
      assert s[4] == ':';
    }
    assert s[1..] == "ttp://" + a;
    ContainsAfterPrefix("ttp://", a, https);
  }

  /** Removing one occurrence can join its neighbours into a new one: the
      host value of such a target still starts with a scheme. */
  lemma StripCanLeaveScheme(a: string)
    requires !Contains(a, "http://") && !Contains(a, "https://")
    ensures StripScheme("hthttp://tp://" + a) == "http://" + a
  {
    FirstReplaceJoins(a);
    NoHttpsAfterHttp(a);
  }

  /** `outbound` is `inbound` with `host` set to the stripped target: the key
      is added when absent, and every other entry is passed through. */
  predicate ForwardedHeaders(inbound: Headers, target: string, outbound: Headers) {
    && outbound.Keys == inbound.Keys + {HostKey}
    && outbound[HostKey] == StripScheme(target)
    && forall k :: k in inbound && k != HostKey ==> outbound[k] == inbound[k]
  }

  /** The rewrite determines the outbound map completely. */
  lemma ForwardedHeadersUnique(inbound: Headers, target: string, h1: Headers, h2: Headers)
    requires ForwardedHeaders(inbound, target, h1) && ForwardedHeaders(inbound, target, h2)
    ensures h1 == h2
  {
  }

  /** Rewriting an already rewritten map changes nothing. */
  lemma ForwardedHeadersIdempotent(inbound: Headers, target: string, once: Headers, twice: Headers)
    requires ForwardedHeaders(inbound, target, once) && ForwardedHeaders(once, target, twice)
    ensures twice == once
  {
  }

  /** `request_headers = dict(request.headers)` followed by
      `request_headers["host"] = ...`. */
  method RewriteHeaders(inbound: Headers, target: string) returns (headers: Headers)
    ensures ForwardedHeaders(inbound, target, headers)
  {
    headers := inbound;
    headers := headers[HostKey := StripScheme(target)];
  }

  /** `TARGET_URL + request.url.path`: no separator, no re-encoding, and the
      query string is dropped. */
  function OutboundUrl(target: string, url: Url): (r: string)
    ensures |r| == |target| + |url.path|
    ensures r[..|target|] == target && r[|target|..] == url.path
  {
    target + url.path
  }
}
