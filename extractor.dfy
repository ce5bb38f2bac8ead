/** `extractImageUrls(html, baseUrl)`, which the serverless function and the
    long-running server define identically: up to three candidate image
    references, one per pattern and in a fixed order, each made absolute. */
module Extractor {
  import opened Wrappers
  import opened Text
  import opened Patterns
  import opened Url

  const HttpPrefix := "http"

  /** A captured value that starts with the literal `http` is kept as it is;
      any other is resolved against the base URL, which may throw. */
  function ResolveReference(parser: UrlParser, ref: string, base: string): (r: Result<string, string>)
    ensures StartsWith(ref, HttpPrefix) ==> r == Success(ref)
    ensures !StartsWith(ref, HttpPrefix) ==> r == parser.resolve(ref, base)
    ensures r.Failure? ==> !StartsWith(ref, HttpPrefix) && r == parser.resolve(ref, base)
  {
    if StartsWith(ref, HttpPrefix) then Success(ref) else parser.resolve(ref, base)
  }

  function OptionToSeq(o: Option<string>): (s: seq<string>)
    ensures |s| == if o.Some? then 1 else 0
    ensures o.Some? ==> s[0] == o.value
  {
    match o
    case Some(v) => [v]
    case None => []
  }

  /** The hits of the three blocks, pushed in turn onto one list. */
  function Collect(og: Option<string>, tw: Option<string>, img: Option<string>): seq<string>
  {
    OptionToSeq(og) + OptionToSeq(tw) + OptionToSeq(img)
  }

  /** Each hit is present exactly when it exists, at the position the hits
      before it leave, and equal values are all kept. */
  lemma CollectOrder(og: Option<string>, tw: Option<string>, img: Option<string>)
    ensures
      var nOg, nTw := if og.Some? then 1 else 0, if tw.Some? then 1 else 0;
      var h := Collect(og, tw, img);
      && |h| == nOg + nTw + (if img.Some? then 1 else 0) <= 3
      && (og.Some? ==> h[0] == og.value)
      && (tw.Some? ==> h[nOg] == tw.value)
      && (img.Some? ==> h[nOg + nTw] == img.value)
      && (h == [] <==> og.None? && tw.None? && img.None?)
  {
    var a, b, c := OptionToSeq(og), OptionToSeq(tw), OptionToSeq(img);
    if |a| > 0 { assert (a + b + c)[0] == a[0]; }
    if |b| > 0 { assert (a + b + c)[|a|] == b[0]; }
    if |c| > 0 { assert (a + b + c)[|a| + |b|] == c[0]; }
  }

  /** The raw captures of the three patterns, in the source's order:
      `og:image`, `twitter:image`, first `<img>`. */
  function Hits(html: string): seq<string>
  {
    Collect(FirstMatch(OgImage, html), FirstMatch(TwitterImage, html), FirstMatch(FirstImg, html))
  }

  /** At most three entries, `og:image` first, the `<img>` capture last,
      each present exactly when its pattern matches, none removed. */
  lemma HitsOrder(html: string)
    ensures
      var og, tw, img := FirstMatch(OgImage, html), FirstMatch(TwitterImage, html), FirstMatch(FirstImg, html);
      var nOg, nTw := if og.Some? then 1 else 0, if tw.Some? then 1 else 0;
      var h := Hits(html);
      && |h| == nOg + nTw + (if img.Some? then 1 else 0) <= 3
      && (og.Some? ==> h[0] == og.value)
      && (tw.Some? ==> h[nOg] == tw.value)
      && (img.Some? ==> h[nOg + nTw] == img.value)
      && (h == [] <==> og.None? && tw.None? && img.None?)
  {
    CollectOrder(FirstMatch(OgImage, html), FirstMatch(TwitterImage, html), FirstMatch(FirstImg, html));
  }

  /** Resolve every reference in order; the first that throws ends the
      extraction with its message. */
  function ResolveAll(parser: UrlParser, refs: seq<string>, base: string): Result<seq<string>, string>
  {
    if refs == [] then Success([])
    else
      match ResolveReference(parser, refs[0], base)
      case Failure(m) => Failure(m)
      case Success(u) =>
        match ResolveAll(parser, refs[1..], base)
        case Failure(m) => Failure(m)
        case Success(us) => Success([u] + us)
  }

  /** ResolveAll succeeds exactly when every reference resolves, and then
      gives each reference's resolution at its own position; otherwise it
      fails with the message of the first reference that throws. */
  lemma {:induction false} ResolveAllPointwise(parser: UrlParser, refs: seq<string>, base: string)
    ensures var r := ResolveAll(parser, refs, base);
      && (r.Success? <==> forall k :: 0 <= k < |refs| ==> ResolveReference(parser, refs[k], base).Success?)
      && (r.Success? ==> (|r.value| == |refs|
            && forall k :: 0 <= k < |refs| ==> r.value[k] == ResolveReference(parser, refs[k], base).value))
      && (r.Failure? ==>
            exists k :: 0 <= k < |refs| && ResolveReference(parser, refs[k], base) == Failure(r.error)
              && (forall j :: 0 <= j < k ==> ResolveReference(parser, refs[j], base).Success?))
  {
    if refs != [] {
      ResolveAllPointwise(parser, refs[1..], base);
      var r := ResolveAll(parser, refs, base);
      var tail := ResolveAll(parser, refs[1..], base);
      if ResolveReference(parser, refs[0], base).Success? {
        if tail.Failure? {
          var k' :| 0 <= k' < |refs[1..]| && ResolveReference(parser, refs[1..][k'], base) == Failure(tail.error)
            && (forall j :: 0 <= j < k' ==> ResolveReference(parser, refs[1..][j], base).Success?);
          assert ResolveReference(parser, refs[k' + 1], base) == Failure(r.error);
          forall j | 0 <= j < k' + 1 ensures ResolveReference(parser, refs[j], base).Success? {
            if j > 0 { assert refs[j] == refs[1..][j - 1]; }
          }
        } else {
          forall k | 0 <= k < |refs| ensures r.value[k] == ResolveReference(parser, refs[k], base).value {
            if k > 0 { assert refs[k] == refs[1..][k - 1]; }
          }
        }
      }
    }
  }

  /** What `extractImageUrls(html, baseUrl)` returns or throws: one URL per
      pattern that matches, at most three, and none exactly when no pattern
      matches; only the resolution of a captured value can throw. */
  function CandidateUrls(parser: UrlParser, html: string, base: string): (r: Result<seq<string>, string>)
    ensures r.Success? ==> |r.value| == |Hits(html)| <= 3
    ensures r == Success([]) <==>
      FirstMatch(OgImage, html).None? && FirstMatch(TwitterImage, html).None? && FirstMatch(FirstImg, html).None?
    ensures r.Failure? ==> exists k :: 0 <= k < |Hits(html)| && ResolveReference(parser, Hits(html)[k], base) == Failure(r.error)
  {
    HitsOrder(html);
    ResolveAllPointwise(parser, Hits(html), base);
    ResolveAll(parser, Hits(html), base)
  }

  /** Appending a reference that resolves to a list that resolves adds its
      resolution at the end. */
  lemma {:induction false} ResolveAllSnoc(parser: UrlParser, pre: seq<string>, x: string, base: string)
    requires ResolveAll(parser, pre, base).Success? && ResolveReference(parser, x, base).Success?
    ensures ResolveAll(parser, pre + [x], base)
        == Success(ResolveAll(parser, pre, base).value + [ResolveReference(parser, x, base).value])
  {
    var v := ResolveReference(parser, x, base).value;
    if pre == [] {
      assert pre + [x] == [x] && [x][1..] == [];
      assert ResolveAll(parser, [x][1..], base) == Success([]);
      assert ResolveAll(parser, pre, base).value + [v] == [v] == [v] + [];
    } else {
      ResolveAllSnoc(parser, pre[1..], x, base);
      var u := ResolveReference(parser, pre[0], base).value;
      var us := ResolveAll(parser, pre[1..], base).value;
      assert ResolveAll(parser, pre, base).value == [u] + us;
      assert (pre + [x])[0] == pre[0] && (pre + [x])[1..] == pre[1..] + [x];
      assert [u] + us + [v] == [u] + (us + [v]);
    }
  }

  /** After a list that resolves, a reference that throws ends the
      extraction with its message, whatever follows it. */
  lemma {:induction false} ResolveAllStops(parser: UrlParser, pre: seq<string>, x: string, rest: seq<string>, base: string)
    requires ResolveAll(parser, pre, base).Success? && ResolveReference(parser, x, base).Failure?
    ensures ResolveAll(parser, pre + [x] + rest, base) == Failure(ResolveReference(parser, x, base).error)
  {
    if pre == [] {
      assert pre + [x] + rest == [x] + rest && ([x] + rest)[1..] == rest;
    } else {
      ResolveAllStops(parser, pre[1..], x, rest, base);
      assert (pre + [x] + rest)[0] == pre[0] && (pre + [x] + rest)[1..] == pre[1..] + [x] + rest;
    }
  }

  /** One of the source's three blocks: when the pattern matched, take
      group 1, resolve it unless it starts with `http`, and push it. */
  method PushCandidate(parser: UrlParser, imageUrls: seq<string>, ghost hits: seq<string>,
                       matched: Option<string>, baseUrl: string, ghost rest: seq<string>)
    returns (r: Result<seq<string>, string>)
    requires ResolveAll(parser, hits, baseUrl) == Success(imageUrls)
    ensures r.Success? ==> ResolveAll(parser, hits + OptionToSeq(matched), baseUrl) == r
    ensures r.Failure? ==> ResolveAll(parser, hits + OptionToSeq(matched) + rest, baseUrl) == r
  {
    if matched.None? {
      assert hits + OptionToSeq(matched) == hits;
      return Success(imageUrls);
    }
    var imageUrl := matched.value;
    assert hits + OptionToSeq(matched) == hits + [imageUrl];
    if !StartsWith(imageUrl, HttpPrefix) {
      var resolved := parser.resolve(imageUrl, baseUrl);
      if resolved.Failure? {
        ResolveAllStops(parser, hits, imageUrl, rest, baseUrl);
        return Failure(resolved.error);
      }
      imageUrl := resolved.value;
    }
    ResolveAllSnoc(parser, hits, matched.value, baseUrl);
    r := Success(imageUrls + [imageUrl]);
  }

  /** The extractor as the source writes it: the `og:image`, `twitter:image`
      and `<img>` blocks in turn onto one local list; a resolution that
      throws ends it. */
  method ExtractImageUrls(parser: UrlParser, html: string, baseUrl: string)
    returns (r: Result<seq<string>, string>)
    ensures r == CandidateUrls(parser, html, baseUrl)
  {
    var og, tw, img := FirstMatch(OgImage, html), FirstMatch(TwitterImage, html), FirstMatch(FirstImg, html);
    var imageUrls: seq<string> := [];
    assert Hits(html) == [] + OptionToSeq(og) + (OptionToSeq(tw) + OptionToSeq(img));

    r := PushCandidate(parser, imageUrls, [], og, baseUrl, OptionToSeq(tw) + OptionToSeq(img));
    if r.Failure? {
      return r;
    }
    imageUrls := r.value;
    assert Hits(html) == OptionToSeq(og) + OptionToSeq(tw) + OptionToSeq(img);

    r := PushCandidate(parser, imageUrls, OptionToSeq(og), tw, baseUrl, OptionToSeq(img));
    if r.Failure? {
      return r;
    }
    imageUrls := r.value;

    r := PushCandidate(parser, imageUrls, OptionToSeq(og) + OptionToSeq(tw), img, baseUrl, []);
    if r.Failure? {
      assert Hits(html) + [] == Hits(html);
      return r;
    }
  }
}
