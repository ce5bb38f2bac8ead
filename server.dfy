/** The long-running HTTP server of `API/api/process.js`: its routing, the
    `/api/process` pipeline, and the Drive and Blogger upload steps. The
    file calls `drive.files.create` without ever declaring `drive`; the
    binding is a parameter here, so that both the program as written
    (Undeclared) and the evidently intended one (Declared) are modelled. */
module Server {
  import opened Wrappers
  import opened Text
  import opened Url
  import opened Patterns
  import opened Extractor
  import opened Media
  import opened Runtime
  import Drive

  /** What the name `drive` is bound to when `uploadImageToDrive` runs. */
  datatype DriveBinding = Undeclared | Declared(api: Drive.DriveApi)

  /** The message of the ReferenceError that V8 throws for an undeclared name. */
  const UndeclaredDriveMessage := "drive is not defined"

  /** What `blogger.posts.insert` answers: the content of the created post
      for (blog id, title, the Drive link its template embeds). */
  datatype Blogger = Blogger(insertPost: (Option<string>, string, Option<string>) -> Result<string, string>)

  const BlogIdVariable := "BLOGGER_BLOG_ID"
  const TitlePrefix := "Push Image "
  const PostLabels: seq<string> := ["push-image", "drive-upload", "temp"]
  const PostStatus := "draft"
  const RootFolder := "root"
  const BloggerErrorPrefix := "Failed to upload image to Blogger: "
  const NoImageInPost := "Could not extract image URL from Blogger response"

  /** `uploadImageToDrive` of this file, with `Date.now()` as `now`: always a
      JPEG named `push-image-<now>.jpg` in the Drive root, whatever the
      bytes; it fails at once when `drive` is undeclared. */
  function UploadToRoot(binding: DriveBinding, now: nat): (r: (Result<Drive.DriveFile, string>, seq<Step>))
    ensures r.0.Failure? ==> StartsWith(r.0.error, Drive.UploadErrorPrefix)
    ensures binding.Undeclared? ==> r == (Failure(Drive.UploadErrorPrefix + UndeclaredDriveMessage), [])
    ensures binding.Declared? ==> r.1 == [CreateFile(DriveFilename(now, "jpg"), Jpeg, RootFolder)]
    ensures binding.Declared? ==>
      var file := binding.api.createFile(DriveFilename(now, "jpg"), Jpeg, RootFolder);
      && (r.0.Success? <==> file.Success?)
      && (r.0.Success? ==> r.0.value == file.value)
      && (r.0.Failure? ==> r.0.error == Drive.UploadErrorPrefix + file.error)
  {
    match binding
    case Undeclared => (Failure(Drive.UploadErrorPrefix + UndeclaredDriveMessage), [])
    case Declared(api) =>
      var filename := DriveFilename(now, "jpg");
      var steps := [CreateFile(filename, Jpeg, RootFolder)];
      match api.createFile(filename, Jpeg, RootFolder)
      case Failure(m) => (Failure(Drive.UploadErrorPrefix + m), steps)
      case Success(file) => (Success(file), steps)
  }

  /** `Push Image ${Date.now()}`: the prefix, then the clock reading in
      decimal, which reads back as that reading. */
  function PostTitle(now: nat): (t: string)
    ensures |t| > |TitlePrefix| && t[..|TitlePrefix|] == TitlePrefix
    ensures AllDigits(t[|TitlePrefix|..]) && DecimalValue(t[|TitlePrefix|..]) == now
  {
    var t := TitlePrefix + DecimalString(now);
    assert t[..|TitlePrefix|] == TitlePrefix && t[|TitlePrefix|..] == DecimalString(now);
    DecimalRoundTrip(now);
    t
  }

  /** `uploadImageToBlogger` with its two clock readings: `postNow` for the
      title, read first, and `driveNow` for the Drive file name. The result
      is the first `src="…"` value of the created post; every failure is
      wrapped. */
  function UploadToBlogger(binding: DriveBinding, blogger: Blogger, blogId: Option<string>, postNow: nat, driveNow: nat)
    : (r: (Result<string, string>, seq<Step>))
    ensures r.0.Failure? ==> StartsWith(r.0.error, BloggerErrorPrefix)
    ensures r.0.Success? ==>
      && UploadToRoot(binding, driveNow).0.Success?
      && var content := blogger.insertPost(blogId, PostTitle(postNow), UploadToRoot(binding, driveNow).0.value.webViewLink);
      && content.Success?
      && FirstMatch(SrcAttr, content.value) == Some(r.0.value)
      && r.1 == UploadToRoot(binding, driveNow).1 + [InsertPost(blogId, PostTitle(postNow), PostLabels, PostStatus)]
    ensures UploadToRoot(binding, driveNow).0.Success? ==>
      var content := blogger.insertPost(blogId, PostTitle(postNow), UploadToRoot(binding, driveNow).0.value.webViewLink);
      content.Success? && FirstMatch(SrcAttr, content.value).None? ==>
        r.0 == Failure(BloggerErrorPrefix + NoImageInPost)
    ensures UploadToRoot(binding, driveNow).0.Failure? ==>
      r == (Failure(BloggerErrorPrefix + UploadToRoot(binding, driveNow).0.error), UploadToRoot(binding, driveNow).1)
    ensures UploadToRoot(binding, driveNow).0.Success? ==>
      var content := blogger.insertPost(blogId, PostTitle(postNow), UploadToRoot(binding, driveNow).0.value.webViewLink);
      && (content.Failure? ==> r.0 == Failure(BloggerErrorPrefix + content.error))
      && (content.Success? && FirstMatch(SrcAttr, content.value).Some? ==>
            r.0 == Success(FirstMatch(SrcAttr, content.value).value))
  {
    var title := PostTitle(postNow);
    var (uploaded, steps) := UploadToRoot(binding, driveNow);
    match uploaded
    case Failure(m) => (Failure(BloggerErrorPrefix + m), steps)
    case Success(file) =>
      var posted := steps + [InsertPost(blogId, title, PostLabels, PostStatus)];
      match blogger.insertPost(blogId, title, file.webViewLink)
      case Failure(m) => (Failure(BloggerErrorPrefix + m), posted)
      case Success(content) =>
        match FirstMatch(SrcAttr, content)
        case None => (Failure(BloggerErrorPrefix + NoImageInPost), posted)
        case Some(imageUrl) => (Success(imageUrl), posted)
  }

  /** The Blogger step can only fail while `drive` is undeclared, and then
      always with the same message, before any call is made. */
  lemma UndeclaredDriveFailsUpload(blogger: Blogger, blogId: Option<string>, postNow: nat, driveNow: nat)
    ensures UploadToBlogger(Undeclared, blogger, blogId, postNow, driveNow)
         == (Failure(BloggerErrorPrefix + Drive.UploadErrorPrefix + UndeclaredDriveMessage), [])
  {
    assert BloggerErrorPrefix + (Drive.UploadErrorPrefix + UndeclaredDriveMessage)
        == BloggerErrorPrefix + Drive.UploadErrorPrefix + UndeclaredDriveMessage;
  }

  // ---------------------------------------------------------------------
  // The /api/process pipeline.

  /** The 200 body: the Blogger image URL, the first candidate and the blog. */
  function BloggerBody(imageUrl: string, originalImage: string, blogId: Option<string>): Body
  {
    BloggerUploadBody(imageUrl, originalImage, blogId)
  }

  /** From the first candidate on: download it, then the Blogger step. The
      image is always fetched first; a throw is a 500 with its message. */
  function PipelineFromCandidate(imageUrl: string, web: Web, binding: DriveBinding, blogger: Blogger,
                                 blogId: Option<string>, postNow: nat, driveNow: nat)
    : (r: (Response, seq<Step>))
    ensures r.0.status == 200 || r.0.status == 500
    ensures |r.1| >= 1 && r.1[0] == FetchImage(imageUrl)
    ensures var download := DownloadImage(web.fetchImage(imageUrl));
      var posted := UploadToBlogger(binding, blogger, blogId, postNow, driveNow);
      && (download.Failure? ==> r == (ServerError(download.error), [FetchImage(imageUrl)]))
      && (download.Success? ==> (r.0.status == 200 <==> posted.0.Success?))
      && (download.Success? && posted.0.Failure? ==> r.0 == ServerError(posted.0.error))
      && (r.0.status == 200 ==> r.0 == Response(200, BloggerBody(posted.0.value, imageUrl, blogId)))
  {
    match DownloadImage(web.fetchImage(imageUrl))
    case Failure(m) => (ServerError(m), [FetchImage(imageUrl)])
    case Success(image) =>
      var (posted, steps) := UploadToBlogger(binding, blogger, blogId, postNow, driveNow);
      match posted
      case Failure(m) => (ServerError(m), [FetchImage(imageUrl)] + steps)
      case Success(bloggerUrl) => (Response(200, BloggerBody(bloggerUrl, imageUrl, blogId)), [FetchImage(imageUrl)] + steps)
  }

  /** From the downloaded page on: the first candidate, if there is one. A
      throw while resolving is a 500 with its message. */
  function PipelineFromPage(parser: UrlParser, postUrl: string, html: string, web: Web, binding: DriveBinding,
                            blogger: Blogger, blogId: Option<string>, postNow: nat, driveNow: nat)
    : (r: (Response, seq<Step>))
    ensures r.0.status == 200 || r.0.status == 404 || r.0.status == 500
    ensures var urls := CandidateUrls(parser, html, parser.origin(postUrl));
      && (r.0.status == 404 <==> urls == Success([]))
      && (urls == Success([]) ==> r == (Response(404, ErrorBody("No images found in the post")), []))
      && (urls.Failure? ==> r == (ServerError(urls.error), []))
      && (urls.Success? && |urls.value| > 0 ==>
            r == PipelineFromCandidate(urls.value[0], web, binding, blogger, blogId, postNow, driveNow))
  {
    match CandidateUrls(parser, html, parser.origin(postUrl))
    case Failure(m) => (ServerError(m), [])
    case Success(urls) =>
      if |urls| == 0 then (Response(404, ErrorBody("No images found in the post")), [])
      else PipelineFromCandidate(urls[0], web, binding, blogger, blogId, postNow, driveNow)
  }

  /** From a valid post URL on: fetch the page. */
  function PipelineFromUrl(parser: UrlParser, postUrl: string, web: Web, binding: DriveBinding,
                           blogger: Blogger, blogId: Option<string>, postNow: nat, driveNow: nat)
    : (r: (Response, seq<Step>))
    ensures |r.1| >= 1 && r.1[0] == FetchPage(postUrl)
    ensures r.0.status == 400 <==> web.fetchPage(postUrl).Failure?
    ensures web.fetchPage(postUrl).Failure? ==>
      r == (Response(400, ErrorBody("Failed to fetch WordPress post")), [FetchPage(postUrl)])
  {
    match web.fetchPage(postUrl)
    case Failure(_) => (Response(400, ErrorBody("Failed to fetch WordPress post")), [FetchPage(postUrl)])
    case Success(html) =>
      var (resp, steps) := PipelineFromPage(parser, postUrl, html, web, binding, blogger, blogId, postNow, driveNow);
      (resp, [FetchPage(postUrl)] + steps)
  }

  /** The `end` callback of `/api/process`, given `JSON.parse(body)` (or the
      message of what parsing or reading it threw). There is no password
      check here. */
  function Pipeline(env: Env, body: Result<RequestBody, string>, parser: UrlParser, web: Web,
                    binding: DriveBinding, blogger: Blogger, postNow: nat, driveNow: nat)
    : (r: (Response, seq<Step>))
    ensures r.1 != [] <==> body.Success? && Truthy(body.value.postUrl) && parser.isValidUrl(body.value.postUrl.value)
    ensures r.1 != [] ==> r.1[0] == FetchPage(body.value.postUrl.value)
    ensures r.0.status == 200 ==> r.0.body.BloggerUploadBody? && r.0.body.blogId == Lookup(env, BlogIdVariable)
  {
    match body
    case Failure(m) => (ServerError(m), [])
    case Success(data) =>
      if !Truthy(data.postUrl) then (Response(400, ErrorBody("Post URL is required")), [])
      else if !parser.isValidUrl(data.postUrl.value) then (Response(400, ErrorBody("Invalid URL format")), [])
      else PipelineFromUrl(parser, data.postUrl.value, web, binding, blogger, Lookup(env, BlogIdVariable), postNow, driveNow)
  }

  const ServiceInfo := ServiceInfoBody("Blogger Image Uploader API", [("POST /api/process", "Process WordPress post URL")])

  /** The request listener, given the method, the path name of the request
      URL and what the `/api/process` route needs. */
  function Route(env: Env, httpMethod: string, pathname: string, body: Result<RequestBody, string>,
                 parser: UrlParser, web: Web, binding: DriveBinding, blogger: Blogger, postNow: nat, driveNow: nat)
    : (r: (Response, seq<Step>))
    ensures r.1 != [] ==> httpMethod == "POST" && pathname == "/api/process"
    ensures r.0.body.NoBody? <==> httpMethod == "OPTIONS"
    ensures r.0.body.ServiceInfoBody? <==> httpMethod == "GET" && pathname == "/"
  {
    if httpMethod == "OPTIONS" then (Response(200, NoBody), [])
    else if pathname == "/api/process" && httpMethod == "POST" then
      Pipeline(env, body, parser, web, binding, blogger, postNow, driveNow)
    else if pathname == "/" && httpMethod == "GET" then (Response(200, ServiceInfo), [])
    else (Response(404, ErrorBody("Not found")), [])
  }

  /** Only `POST /api/process` reaches the pipeline; every other request is
      answered at once, without a call to another service. */
  lemma Routing(env: Env, httpMethod: string, pathname: string, body: Result<RequestBody, string>,
                parser: UrlParser, web: Web, binding: DriveBinding, blogger: Blogger, postNow: nat, driveNow: nat)
    ensures var (resp, trace) := Route(env, httpMethod, pathname, body, parser, web, binding, blogger, postNow, driveNow);
      && (httpMethod == "OPTIONS" ==> resp == Response(200, NoBody))
      && (httpMethod == "GET" && pathname == "/" ==> resp == Response(200, ServiceInfo))
      && ((httpMethod != "OPTIONS" && !(httpMethod == "GET" && pathname == "/")
           && !(httpMethod == "POST" && pathname == "/api/process")) ==> resp == Response(404, ErrorBody("Not found")))
      && (trace != [] ==> httpMethod == "POST" && pathname == "/api/process")
      && (httpMethod == "POST" && pathname == "/api/process" ==>
            (resp, trace) == Pipeline(env, body, parser, web, binding, blogger, postNow, driveNow))
  {
  }

  /** The pipeline checks in order: the body, a truthy `postUrl`, a valid
      URL, the page fetch. Nothing is fetched before the URL is valid, and
      the `password` property makes no difference. */
  lemma PipelineChecks(env: Env, body: Result<RequestBody, string>, parser: UrlParser, web: Web,
                       binding: DriveBinding, blogger: Blogger, postNow: nat, driveNow: nat)
    ensures var (resp, trace) := Pipeline(env, body, parser, web, binding, blogger, postNow, driveNow);
      && (body.Failure? ==> resp == ServerError(body.error))
      && (body.Success? && !Truthy(body.value.postUrl) ==> resp == Response(400, ErrorBody("Post URL is required")))
      && (body.Success? && Truthy(body.value.postUrl) && !parser.isValidUrl(body.value.postUrl.value) ==>
            resp == Response(400, ErrorBody("Invalid URL format")))
      && (trace != [] <==> body.Success? && Truthy(body.value.postUrl) && parser.isValidUrl(body.value.postUrl.value))
      && (trace != [] ==> trace[0] == FetchPage(body.value.postUrl.value))
      && (trace != [] && web.fetchPage(body.value.postUrl.value).Failure? ==>
            resp == Response(400, ErrorBody("Failed to fetch WordPress post")))
      && (body.Success? ==> forall password: Option<string> ::
            Pipeline(env, Success(RequestBody(body.value.postUrl, password)), parser, web, binding, blogger, postNow, driveNow)
              == (resp, trace))
  {
  }

  /** Once the page is fetched: 404 exactly when no pattern matches, and
      otherwise whatever throws decides the answer, a 500 carrying the raw
      message of the resolution, the download or the Blogger step. */
  lemma PipelineOutcomes(env: Env, body: Result<RequestBody, string>, parser: UrlParser, web: Web,
                         binding: DriveBinding, blogger: Blogger, postNow: nat, driveNow: nat)
    ensures var (resp, trace) := Pipeline(env, body, parser, web, binding, blogger, postNow, driveNow);
      trace != [] && web.fetchPage(body.value.postUrl.value).Success? ==>
        var postUrl := body.value.postUrl.value;
        var html := web.fetchPage(postUrl).value;
        var urls := CandidateUrls(parser, html, parser.origin(postUrl));
        && (resp.status == 404 <==>
              FirstMatch(OgImage, html).None? && FirstMatch(TwitterImage, html).None? && FirstMatch(FirstImg, html).None?)
        && (resp.status == 404 ==> resp == Response(404, ErrorBody("No images found in the post")))
        && (urls.Failure? ==> resp == ServerError(urls.error))
        && (urls.Success? && |urls.value| > 0 ==>
              var download := DownloadImage(web.fetchImage(urls.value[0]));
              var posted := UploadToBlogger(binding, blogger, Lookup(env, BlogIdVariable), postNow, driveNow);
              && (download.Failure? ==> resp == ServerError(download.error))
              && (download.Success? && posted.0.Failure? ==> resp == ServerError(posted.0.error)))
  {
  }

  /** As written, a page whose first candidate downloads within the limit
      always ends in the same 500, and no page gives 200. */
  lemma AsWrittenUploadFails(parser: UrlParser, postUrl: string, html: string, web: Web, blogger: Blogger,
                             blogId: Option<string>, postNow: nat, driveNow: nat)
    ensures PipelineFromPage(parser, postUrl, html, web, Undeclared, blogger, blogId, postNow, driveNow).0.status != 200
    ensures var urls := CandidateUrls(parser, html, parser.origin(postUrl));
      urls.Success? && |urls.value| > 0 && DownloadImage(web.fetchImage(urls.value[0])).Success? ==>
        PipelineFromPage(parser, postUrl, html, web, Undeclared, blogger, blogId, postNow, driveNow)
          == (ServerError(BloggerErrorPrefix + Drive.UploadErrorPrefix + UndeclaredDriveMessage),
              [FetchImage(urls.value[0])])
  {
    UndeclaredDriveFailsUpload(blogger, blogId, postNow, driveNow);
    var urls := CandidateUrls(parser, html, parser.origin(postUrl));
    if urls.Success? && |urls.value| > 0 {
      assert [FetchImage(urls.value[0])] + [] == [FetchImage(urls.value[0])];
    }
  }

  /** As written, no `POST /api/process` is ever answered with 200: only
      the preflight and the root description are. */
  lemma AsWrittenNeverSucceeds(env: Env, httpMethod: string, pathname: string, body: Result<RequestBody, string>,
                               parser: UrlParser, web: Web, blogger: Blogger, postNow: nat, driveNow: nat)
    ensures Route(env, httpMethod, pathname, body, parser, web, Undeclared, blogger, postNow, driveNow).0.status == 200 ==>
      httpMethod == "OPTIONS" || (httpMethod == "GET" && pathname == "/")
  {
    if httpMethod != "OPTIONS" && pathname == "/api/process" && httpMethod == "POST" && body.Success?
       && Truthy(body.value.postUrl) && parser.isValidUrl(body.value.postUrl.value)
    {
      var postUrl := body.value.postUrl.value;
      if web.fetchPage(postUrl).Success? {
        AsWrittenUploadFails(parser, postUrl, web.fetchPage(postUrl).value, web, blogger,
                             Lookup(env, BlogIdVariable), postNow, driveNow);
      }
    }
  }

  /** With `drive` declared, a request whose every call succeeds and whose
      post content carries a `src="…"` value is answered with 200: that
      value, the first candidate and the blog id. */
  lemma DeclaredDriveSucceeds(env: Env, body: Result<RequestBody, string>, parser: UrlParser, web: Web,
                              api: Drive.DriveApi, blogger: Blogger, postNow: nat, driveNow: nat)
    requires body.Success? && Truthy(body.value.postUrl) && parser.isValidUrl(body.value.postUrl.value)
    requires web.fetchPage(body.value.postUrl.value).Success?
    requires var urls := CandidateUrls(parser, web.fetchPage(body.value.postUrl.value).value,
                                       parser.origin(body.value.postUrl.value));
      && urls.Success? && |urls.value| > 0
      && web.fetchImage(urls.value[0]).Success? && |web.fetchImage(urls.value[0]).value| <= MaxImageBytes
    requires api.createFile(DriveFilename(driveNow, "jpg"), Jpeg, RootFolder).Success?
    requires var link := api.createFile(DriveFilename(driveNow, "jpg"), Jpeg, RootFolder).value.webViewLink;
      var content := blogger.insertPost(Lookup(env, BlogIdVariable), PostTitle(postNow), link);
      content.Success? && FirstMatch(SrcAttr, content.value).Some?
    ensures var urls := CandidateUrls(parser, web.fetchPage(body.value.postUrl.value).value,
                                      parser.origin(body.value.postUrl.value)).value;
      var link := api.createFile(DriveFilename(driveNow, "jpg"), Jpeg, RootFolder).value.webViewLink;
      var content := blogger.insertPost(Lookup(env, BlogIdVariable), PostTitle(postNow), link).value;
      Route(env, "POST", "/api/process", body, parser, web, Declared(api), blogger, postNow, driveNow).0
        == Response(200, BloggerBody(FirstMatch(SrcAttr, content).value, urls[0], Lookup(env, BlogIdVariable)))
  {
    var postUrl := body.value.postUrl.value;
    var html := web.fetchPage(postUrl).value;
    var urls := CandidateUrls(parser, html, parser.origin(postUrl)).value;
    var image := DownloadImage(web.fetchImage(urls[0]));
    assert image.Success?;
    var link := api.createFile(DriveFilename(driveNow, "jpg"), Jpeg, RootFolder).value.webViewLink;
    var content := blogger.insertPost(Lookup(env, BlogIdVariable), PostTitle(postNow), link).value;
    var posted := UploadToBlogger(Declared(api), blogger, Lookup(env, BlogIdVariable), postNow, driveNow);
    assert posted.0 == Success(FirstMatch(SrcAttr, content).value);
  }

  /** Any 200 from the pipeline needs a declared `drive`, and answers with
      the Blogger URL taken from the post and the first candidate. */
  lemma PipelineSuccess(env: Env, body: Result<RequestBody, string>, parser: UrlParser, web: Web,
                        binding: DriveBinding, blogger: Blogger, postNow: nat, driveNow: nat)
    requires Pipeline(env, body, parser, web, binding, blogger, postNow, driveNow).0.status == 200
    ensures binding.Declared?
    ensures body.Success? && Truthy(body.value.postUrl) && parser.isValidUrl(body.value.postUrl.value)
    ensures var postUrl := body.value.postUrl.value;
      && web.fetchPage(postUrl).Success?
      && var urls := CandidateUrls(parser, web.fetchPage(postUrl).value, parser.origin(postUrl));
      && urls.Success? && |urls.value| > 0
      && var resp := Pipeline(env, body, parser, web, binding, blogger, postNow, driveNow).0;
      && resp.body.BloggerUploadBody?
      && resp.body.originalImage == urls.value[0]
      && resp.body.blogId == Lookup(env, BlogIdVariable)
      && UploadToBlogger(binding, blogger, Lookup(env, BlogIdVariable), postNow, driveNow).0 == Success(resp.body.imageUrl)
  {
  }

  // ---------------------------------------------------------------------
  // The listener as the early-return chains it is.

  /** The `end` callback of `/api/process`. */
  method ProcessRequest(env: Env, body: Result<RequestBody, string>, parser: UrlParser, web: Web,
                        binding: DriveBinding, blogger: Blogger, postNow: nat, driveNow: nat)
    returns (resp: Response, trace: seq<Step>)
    ensures (resp, trace) == Pipeline(env, body, parser, web, binding, blogger, postNow, driveNow)
  {
    trace := [];
    if body.Failure? {
      return ServerError(body.error), trace;
    }
    var data := body.value;
    if !Truthy(data.postUrl) {
      return Response(400, ErrorBody("Post URL is required")), trace;
    }
    if !parser.isValidUrl(data.postUrl.value) {
      return Response(400, ErrorBody("Invalid URL format")), trace;
    }
    var postUrl := data.postUrl.value;
    var blogId := Lookup(env, BlogIdVariable);
    trace := [FetchPage(postUrl)];
    var page := web.fetchPage(postUrl);
    if page.Failure? {
      return Response(400, ErrorBody("Failed to fetch WordPress post")), trace;
    }
    ghost var rest := PipelineFromPage(parser, postUrl, page.value, web, binding, blogger, blogId, postNow, driveNow);
    assert PipelineFromUrl(parser, postUrl, web, binding, blogger, blogId, postNow, driveNow) == (rest.0, trace + rest.1);
    var baseUrl := parser.origin(postUrl);
    var imageUrls := ExtractImageUrls(parser, page.value, baseUrl);
    if imageUrls.Failure? {
      assert trace + [] == trace;
      return ServerError(imageUrls.error), trace;
    }
    if |imageUrls.value| == 0 {
      assert trace + [] == trace;
      return Response(404, ErrorBody("No images found in the post")), trace;
    }
    var imageUrl := imageUrls.value[0];
    trace := trace + [FetchImage(imageUrl)];
    var image := DownloadImage(web.fetchImage(imageUrl));
    if image.Failure? {
      return ServerError(image.error), trace;
    }
    var posted := UploadToBlogger(binding, blogger, blogId, postNow, driveNow);
    trace := [FetchPage(postUrl)] + ([FetchImage(imageUrl)] + posted.1);
    if posted.0.Failure? {
      return ServerError(posted.0.error), trace;
    }
    resp := Response(200, BloggerBody(posted.0.value, imageUrl, blogId));
  }

  /** The request listener. */
  method HandleRequest(env: Env, httpMethod: string, pathname: string, body: Result<RequestBody, string>,
                       parser: UrlParser, web: Web, binding: DriveBinding, blogger: Blogger, postNow: nat, driveNow: nat)
    returns (resp: Response, trace: seq<Step>)
    ensures (resp, trace) == Route(env, httpMethod, pathname, body, parser, web, binding, blogger, postNow, driveNow)
  {
    if httpMethod == "OPTIONS" {
      return Response(200, NoBody), [];
    }
    if pathname == "/api/process" && httpMethod == "POST" {
      resp, trace := ProcessRequest(env, body, parser, web, binding, blogger, postNow, driveNow);
    } else if pathname == "/" && httpMethod == "GET" {
      resp, trace := Response(200, ServiceInfo), [];
    } else {
      resp, trace := Response(404, ErrorBody("Not found")), [];
    }
  }
}
