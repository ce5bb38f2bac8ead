/** The serverless handler of `api/process.js`: validators, the lazily
    built Drive client, and the early-return decision chain of the
    exported request handler. */
module Serverless {
  import opened Wrappers
  import opened Text
  import opened Url
  import opened Extractor
  import opened Media
  import opened Runtime
  import opened Drive

  // ---------------------------------------------------------------------
  // validateEnvironmentVariables

  const RequiredVariables: seq<string> := ["GOOGLE_CLIENT_ID", "GOOGLE_CLIENT_SECRET", "GOOGLE_REFRESH_TOKEN"]
  const MissingPrefix := "Missing required environment variables: "

  /** The names among `names` that are not set, in their order there. */
  function Unset(names: seq<string>, env: Env): (m: seq<string>)
    ensures |m| <= |names|
  {
    if names == [] then []
    else MissingName(env, names[0]) + Unset(names[1..], env)
  }

  /** What one test of the collector appends. */
  function MissingName(env: Env, name: string): seq<string>
  {
    if IsSet(env, name) then [] else [name]
  }

  /** A name is listed exactly when it is one of `names` and is not set. */
  lemma {:induction false} UnsetMembers(names: seq<string>, env: Env)
    ensures forall x :: x in Unset(names, env) <==> x in names && !IsSet(env, x)
  {
    if names != [] {
      UnsetMembers(names[1..], env);
      assert names == [names[0]] + names[1..];
    }
  }

  /** Filtering a concatenation filters each part, so the order of the
      names is kept. */
  lemma {:induction false} UnsetAppend(a: seq<string>, b: seq<string>, env: Env)
    ensures Unset(a + b, env) == Unset(a, env) + Unset(b, env)
  {
    if a == [] {
      assert a + b == b;
    } else {
      var head := MissingName(env, a[0]);
      assert (a + b)[0] == a[0];
      assert (a + b)[1..] == a[1..] + b;
      calc {
        Unset(a + b, env);
        head + Unset(a[1..] + b, env);
        { UnsetAppend(a[1..], b, env); }
        head + (Unset(a[1..], env) + Unset(b, env));
        (head + Unset(a[1..], env)) + Unset(b, env);
      }
    }
  }

  /** The outcome of `validateEnvironmentVariables`: it passes exactly when
      all three are set, and otherwise names the missing ones. */
  function EnvironmentCheck(env: Env): (r: Outcome<string>)
    ensures r.Pass? <==> forall name :: name in RequiredVariables ==> IsSet(env, name)
    ensures r.Fail? ==> r.error == MissingPrefix + Join(Unset(RequiredVariables, env), ", ")
  {
    UnsetMembers(RequiredVariables, env);
    var missing := Unset(RequiredVariables, env);
    if missing == [] then Pass
    else
      assert missing[0] in RequiredVariables;
      Fail(MissingPrefix + Join(missing, ", "))
  }

  method ValidateEnvironmentVariables(env: Env) returns (r: Outcome<string>)
    ensures r == EnvironmentCheck(env)
  {
    var missing: seq<string> := [];
    if !IsSet(env, "GOOGLE_CLIENT_ID") { missing := missing + ["GOOGLE_CLIENT_ID"]; }
    if !IsSet(env, "GOOGLE_CLIENT_SECRET") { missing := missing + ["GOOGLE_CLIENT_SECRET"]; }
    if !IsSet(env, "GOOGLE_REFRESH_TOKEN") { missing := missing + ["GOOGLE_REFRESH_TOKEN"]; }
    assert missing == MissingName(env, "GOOGLE_CLIENT_ID") + MissingName(env, "GOOGLE_CLIENT_SECRET")
                    + MissingName(env, "GOOGLE_REFRESH_TOKEN");
    UnsetAppend(["GOOGLE_CLIENT_ID"], ["GOOGLE_CLIENT_SECRET", "GOOGLE_REFRESH_TOKEN"], env);
    UnsetAppend(["GOOGLE_CLIENT_SECRET"], ["GOOGLE_REFRESH_TOKEN"], env);
    assert missing == Unset(RequiredVariables, env);
    if |missing| > 0 {
      return Fail(MissingPrefix + Join(missing, ", "));
    }
    return Pass;
  }

  // ---------------------------------------------------------------------
  // validatePassword

  const ApiPasswordVariable := "API_PASSWORD"

  /** `process.env.API_PASSWORD || null`, read once when the module loads. */
  function ApiPassword(env: Env): (p: Option<string>)
    ensures p.Some? <==> IsSet(env, ApiPasswordVariable)
    ensures p.Some? ==> p.value == env[ApiPasswordVariable]
  {
    if IsSet(env, ApiPasswordVariable) then Some(env[ApiPasswordVariable]) else None
  }

  /** With no password configured every request passes; otherwise only the
      identical string does. */
  function ValidatePassword(apiPassword: Option<string>, password: Option<string>): (ok: bool)
    ensures !Truthy(apiPassword) ==> ok
    ensures Truthy(apiPassword) ==> (ok <==> password == apiPassword)
  {
    if !Truthy(apiPassword) then true else password == apiPassword
  }

  /** The password check in terms of the environment the module loaded with:
      an unset or empty `API_PASSWORD` accepts anything, an absent password
      included. */
  lemma PasswordCheck(env: Env, password: Option<string>)
    ensures ValidatePassword(ApiPassword(env), password) <==>
      !IsSet(env, ApiPasswordVariable) || password == Some(env[ApiPasswordVariable])
  {
  }

  // ---------------------------------------------------------------------
  // The decision chain of the handler.

  const AuthFailure := AuthFailureBody("Authentication failed", "Invalid or missing password")
  const SuccessMessage := "Image uploaded to Google Drive successfully."

  /** The 200 body built from the Drive result and the first candidate. */
  function SuccessBody(d: DriveResult, imageUrl: string): Body
  {
    DriveUploadBody(true, d.directImageUrl, d.filename, d.fileId, d.alternativeUrls, d.webViewLink,
                    imageUrl, SuccessMessage)
  }

  /** After the download: upload to Drive and shape the answer. The answer
      is 200 exactly when the upload succeeded, and otherwise the 500 of the
      upload's message; the calls are the upload's. */
  function FromImage(imageUrl: string, image: seq<byte>, api: DriveApi, now: nat): (r: (Response, seq<Step>))
    ensures r.0.status == 200 || r.0.status == 500
    ensures r.1 == UploadToDrive(api, image, now).1
    ensures r.0.status == 200 <==> UploadToDrive(api, image, now).0.Success?
    ensures r.0.status == 200 ==>
      r.0.body.DriveUploadBody? && r.0.body.success && r.0.body.originalImage == imageUrl
    ensures r.0.status == 500 ==> r.0 == ServerError(UploadToDrive(api, image, now).0.error)
  {
    var (uploaded, steps) := UploadToDrive(api, image, now);
    match uploaded
    case Failure(m) => (ServerError(m), steps)
    case Success(d) => (Response(200, SuccessBody(d, imageUrl)), steps)
  }

  /** From the first candidate on: download it and upload it. The image is
      always fetched first; a failed download ends there with its 500. */
  function FromCandidate(imageUrl: string, web: Web, api: DriveApi, now: nat): (r: (Response, seq<Step>))
    ensures r.0.status == 200 || r.0.status == 500
    ensures |r.1| >= 1 && r.1[0] == FetchImage(imageUrl)
    ensures var download := DownloadImage(web.fetchImage(imageUrl));
      && (download.Failure? ==> r == (ServerError(download.error), [FetchImage(imageUrl)]))
      && (download.Success? ==>
            && (r.0.status == 200 <==> UploadToDrive(api, download.value, now).0.Success?)
            && (r.0.status == 500 ==> r.0 == ServerError(UploadToDrive(api, download.value, now).0.error)))
  {
    match DownloadImage(web.fetchImage(imageUrl))
    case Failure(m) => (ServerError(m), [FetchImage(imageUrl)])
    case Success(image) =>
      var (resp, steps) := FromImage(imageUrl, image, api, now);
      (resp, [FetchImage(imageUrl)] + steps)
  }

  /** From the downloaded page on: the first candidate, if there is one. A
      throw anywhere is a 500 with its message. */
  function FromPage(parser: UrlParser, postUrl: string, html: string, web: Web, api: DriveApi, now: nat)
    : (r: (Response, seq<Step>))
    ensures r.0.status == 200 || r.0.status == 404 || r.0.status == 500
    ensures var urls := CandidateUrls(parser, html, parser.origin(postUrl));
      && (r.0.status == 404 <==> urls == Success([]))
      && (urls == Success([]) ==> r == (Response(404, ErrorBody("No images found in the post")), []))
      && (urls.Failure? ==> r == (ServerError(urls.error), []))
      && (urls.Success? && |urls.value| > 0 ==> r == FromCandidate(urls.value[0], web, api, now))
  {
    match CandidateUrls(parser, html, parser.origin(postUrl))
    case Failure(m) => (ServerError(m), [])
    case Success(urls) =>
      if |urls| == 0 then (Response(404, ErrorBody("No images found in the post")), [])
      else FromCandidate(urls[0], web, api, now)
  }

  /** From a valid post URL on: fetch the page. */
  function FromPostUrl(parser: UrlParser, postUrl: string, web: Web, api: DriveApi, now: nat): (r: (Response, seq<Step>))
    ensures r.0.status == 200 || r.0.status == 400 || r.0.status == 404 || r.0.status == 500
    ensures |r.1| >= 1 && r.1[0] == FetchPage(postUrl)
    ensures r.0.status == 400 <==> web.fetchPage(postUrl).Failure?
    ensures web.fetchPage(postUrl).Failure? ==>
      r == (Response(400, ErrorBody("Failed to fetch WordPress post")), [FetchPage(postUrl)])
  {
    match web.fetchPage(postUrl)
    case Failure(_) => (Response(400, ErrorBody("Failed to fetch WordPress post")), [FetchPage(postUrl)])
    case Success(html) =>
      var (resp, steps) := FromPage(parser, postUrl, html, web, api, now);
      (resp, [FetchPage(postUrl)] + steps)
  }

  /** From a readable body on: the password and the post URL. */
  function FromBody(apiPassword: Option<string>, data: RequestBody, parser: UrlParser, web: Web, api: DriveApi, now: nat)
    : (r: (Response, seq<Step>))
    ensures r.0.status == 200 || r.0.status == 400 || r.0.status == 401 || r.0.status == 404 || r.0.status == 500
    ensures r.0.status == 401 <==> !ValidatePassword(apiPassword, data.password)
    ensures r.1 != [] <==>
      ValidatePassword(apiPassword, data.password) && Truthy(data.postUrl) && parser.isValidUrl(data.postUrl.value)
    ensures ValidatePassword(apiPassword, data.password) && Truthy(data.postUrl) && !parser.isValidUrl(data.postUrl.value) ==>
      r.0 == Response(400, ErrorBody("Invalid URL format"))
  {
    if !ValidatePassword(apiPassword, data.password) then (Response(401, AuthFailure), [])
    else if !Truthy(data.postUrl) then (Response(400, ErrorBody("Post URL is required")), [])
    else if !parser.isValidUrl(data.postUrl.value) then (Response(400, ErrorBody("Invalid URL format")), [])
    else FromPostUrl(parser, data.postUrl.value, web, api, now)
  }

  /** The response of the exported handler and the calls it made, given the
      password read at load time, the environment, the method, the parsed
      body (or the message thrown when its properties are read), the URL
      parser and the outside world's answers. */
  function Decide(apiPassword: Option<string>, env: Env, httpMethod: string, body: Result<RequestBody, string>,
                  parser: UrlParser, web: Web, api: DriveApi, now: nat): (r: (Response, seq<Step>))
    ensures r.0.body.NoBody? <==> httpMethod == "OPTIONS"
    ensures r.0.status == 405 <==> httpMethod != "OPTIONS" && httpMethod != "POST"
    ensures r.1 != [] <==> Admitted(apiPassword, env, httpMethod, body, parser)
  {
    if httpMethod == "OPTIONS" then (Response(200, NoBody), [])
    else if httpMethod != "POST" then (Response(405, ErrorBody("Method not allowed")), [])
    else match EnvironmentCheck(env)
      case Fail(m) => (ServerError(m), [])
      case Pass =>
        match body
        case Failure(m) => (ServerError(m), [])
        case Success(data) => FromBody(apiPassword, data, parser, web, api, now)
  }

  /** The answers the handler gives: each status with the body it carries. */
  predicate WellFormed(resp: Response)
  {
    match resp.status
    case 200 => resp.body.NoBody? || resp.body.DriveUploadBody?
    case 400 => resp.body.ErrorBody? && resp.body.error != ""
    case 401 => resp.body == AuthFailure
    case 404 => resp.body == ErrorBody("No images found in the post")
    case 405 => resp.body == ErrorBody("Method not allowed")
    case 500 => resp.body.ErrorBody?
    case _ => false
  }

  lemma FromCandidateWellFormed(imageUrl: string, web: Web, api: DriveApi, now: nat)
    ensures WellFormed(FromCandidate(imageUrl, web, api, now).0)
  {
    var download := DownloadImage(web.fetchImage(imageUrl));
    if download.Success? {
      var uploaded := UploadToDrive(api, download.value, now).0;
      assert FromCandidate(imageUrl, web, api, now).0 == FromImage(imageUrl, download.value, api, now).0;
      assert uploaded.Success? ==> FromImage(imageUrl, download.value, api, now).0.body.DriveUploadBody?;
    }
  }

  lemma FromPageWellFormed(parser: UrlParser, postUrl: string, html: string, web: Web, api: DriveApi, now: nat)
    ensures WellFormed(FromPage(parser, postUrl, html, web, api, now).0)
  {
    var urls := CandidateUrls(parser, html, parser.origin(postUrl));
    if urls.Success? && |urls.value| > 0 {
      FromCandidateWellFormed(urls.value[0], web, api, now);
    }
  }

  /** Every answer is one of six statuses with its own kind of body. */
  lemma DecideWellFormed(apiPassword: Option<string>, env: Env, httpMethod: string, body: Result<RequestBody, string>,
                         parser: UrlParser, web: Web, api: DriveApi, now: nat)
    ensures WellFormed(Decide(apiPassword, env, httpMethod, body, parser, web, api, now).0)
  {
    if httpMethod == "POST" && EnvironmentCheck(env).Pass? && body.Success? {
      var data := body.value;
      if ValidatePassword(apiPassword, data.password) && Truthy(data.postUrl) && parser.isValidUrl(data.postUrl.value) {
        var postUrl := data.postUrl.value;
        if web.fetchPage(postUrl).Success? {
          FromPageWellFormed(parser, postUrl, web.fetchPage(postUrl).value, web, api, now);
        }
      }
    }
  }

  /** Every check before the page is fetched passes, in this order. */
  predicate Admitted(apiPassword: Option<string>, env: Env, httpMethod: string,
                     body: Result<RequestBody, string>, parser: UrlParser)
  {
    && httpMethod == "POST"
    && EnvironmentCheck(env).Pass?
    && body.Success?
    && ValidatePassword(apiPassword, body.value.password)
    && Truthy(body.value.postUrl)
    && parser.isValidUrl(body.value.postUrl.value)
  }

  /** The first failing check decides the response, and nothing is fetched
      from anywhere before all of them have passed. */
  lemma CheckOrder(apiPassword: Option<string>, env: Env, httpMethod: string, body: Result<RequestBody, string>,
                   parser: UrlParser, web: Web, api: DriveApi, now: nat)
    ensures var (resp, trace) := Decide(apiPassword, env, httpMethod, body, parser, web, api, now);
      && (trace != [] <==> Admitted(apiPassword, env, httpMethod, body, parser))
      && (trace != [] ==> trace[0] == FetchPage(body.value.postUrl.value))
      && (httpMethod == "OPTIONS" ==> resp == Response(200, NoBody))
      && (httpMethod != "OPTIONS" && httpMethod != "POST" ==> resp == Response(405, ErrorBody("Method not allowed")))
      && (httpMethod == "POST" && EnvironmentCheck(env).Fail? ==> resp == ServerError(EnvironmentCheck(env).error))
      && (httpMethod == "POST" && EnvironmentCheck(env).Pass? && body.Failure? ==> resp == ServerError(body.error))
      && (httpMethod == "POST" && EnvironmentCheck(env).Pass? && body.Success? ==>
            && (!ValidatePassword(apiPassword, body.value.password) ==> resp == Response(401, AuthFailure))
            && (ValidatePassword(apiPassword, body.value.password) && !Truthy(body.value.postUrl) ==>
                  resp == Response(400, ErrorBody("Post URL is required")))
            && (ValidatePassword(apiPassword, body.value.password) && Truthy(body.value.postUrl)
                && !parser.isValidUrl(body.value.postUrl.value) ==>
                  resp == Response(400, ErrorBody("Invalid URL format"))))
      && (Admitted(apiPassword, env, httpMethod, body, parser) && web.fetchPage(body.value.postUrl.value).Failure? ==>
            resp == Response(400, ErrorBody("Failed to fetch WordPress post")))
  {
  }

  /** Once the page is fetched, whatever throws later decides the answer: a
      500 whose `error` is the thrown message, be it the resolution of a
      captured value, the download of the first candidate or the upload. */
  lemma ThrownErrorsAre500(apiPassword: Option<string>, env: Env, httpMethod: string, body: Result<RequestBody, string>,
                           parser: UrlParser, web: Web, api: DriveApi, now: nat)
    ensures Admitted(apiPassword, env, httpMethod, body, parser) && web.fetchPage(body.value.postUrl.value).Success? ==>
      var postUrl := body.value.postUrl.value;
      var resp := Decide(apiPassword, env, httpMethod, body, parser, web, api, now).0;
      var urls := CandidateUrls(parser, web.fetchPage(postUrl).value, parser.origin(postUrl));
      && (urls.Failure? ==> resp == ServerError(urls.error))
      && (urls.Success? && |urls.value| > 0 ==>
            var download := DownloadImage(web.fetchImage(urls.value[0]));
            && (download.Failure? ==> resp == ServerError(download.error))
            && (download.Success? && UploadToDrive(api, download.value, now).0.Failure? ==>
                  resp == ServerError(UploadToDrive(api, download.value, now).0.error)))
  {
  }

  /** A page where no pattern matches gives 404 once the page is fetched. */
  lemma NoImagesFound(apiPassword: Option<string>, env: Env, httpMethod: string, body: Result<RequestBody, string>,
                      parser: UrlParser, web: Web, api: DriveApi, now: nat)
    requires Admitted(apiPassword, env, httpMethod, body, parser)
    requires web.fetchPage(body.value.postUrl.value).Success?
    requires Hits(web.fetchPage(body.value.postUrl.value).value) == []
    ensures Decide(apiPassword, env, httpMethod, body, parser, web, api, now)
         == (Response(404, ErrorBody("No images found in the post")), [FetchPage(body.value.postUrl.value)])
  {
    var postUrl := body.value.postUrl.value;
    var html := web.fetchPage(postUrl).value;
    assert CandidateUrls(parser, html, parser.origin(postUrl)) == Success([]);
    assert FromPage(parser, postUrl, html, web, api, now) == (Response(404, ErrorBody("No images found in the post")), []);
    assert [FetchPage(postUrl)] + [] == [FetchPage(postUrl)];
  }

  /** An image over 5 MiB is refused after its download and never reaches
      Drive. */
  lemma OversizeImageNotUploaded(apiPassword: Option<string>, env: Env, httpMethod: string,
                                 body: Result<RequestBody, string>, parser: UrlParser, web: Web, api: DriveApi, now: nat)
    requires Admitted(apiPassword, env, httpMethod, body, parser)
    requires web.fetchPage(body.value.postUrl.value).Success?
    requires var urls := CandidateUrls(parser, web.fetchPage(body.value.postUrl.value).value,
                                       parser.origin(body.value.postUrl.value));
      && urls.Success? && |urls.value| > 0
      && web.fetchImage(urls.value[0]).Success? && |web.fetchImage(urls.value[0]).value| > MaxImageBytes
    ensures var urls := CandidateUrls(parser, web.fetchPage(body.value.postUrl.value).value,
                                      parser.origin(body.value.postUrl.value));
      Decide(apiPassword, env, httpMethod, body, parser, web, api, now)
        == (ServerError(DownloadErrorPrefix + TooLargeMessage),
            [FetchPage(body.value.postUrl.value), FetchImage(urls.value[0])])
  {
    var postUrl := body.value.postUrl.value;
    var html := web.fetchPage(postUrl).value;
    var urls := CandidateUrls(parser, html, parser.origin(postUrl));
    var refused := (ServerError(DownloadErrorPrefix + TooLargeMessage), [FetchImage(urls.value[0])]);
    assert DownloadImage(web.fetchImage(urls.value[0])) == Failure(DownloadErrorPrefix + TooLargeMessage);
    assert FromCandidate(urls.value[0], web, api, now) == refused;
    assert FromPage(parser, postUrl, html, web, api, now) == refused;
    assert FromPostUrl(parser, postUrl, web, api, now) == (refused.0, [FetchPage(postUrl)] + refused.1);
    assert [FetchPage(postUrl)] + [FetchImage(urls.value[0])] == [FetchPage(postUrl), FetchImage(urls.value[0])];
    assert Decide(apiPassword, env, httpMethod, body, parser, web, api, now)
        == FromPostUrl(parser, postUrl, web, api, now);
  }

  /** A 200 after the download: the sniffed file was uploaded and shared,
      and the answer names it. */
  lemma FromImageSuccess(imageUrl: string, image: seq<byte>, api: DriveApi, now: nat)
    requires FromImage(imageUrl, image, api, now).0.status == 200
    ensures var (resp, steps) := FromImage(imageUrl, image, api, now);
      && resp.body.DriveUploadBody?
      && resp.body.success
      && resp.body.originalImage == imageUrl
      && resp.body.message == SuccessMessage
      && resp.body.filename == DriveFilename(now, GetFileExtension(DetectImageMimeType(image)))
      && resp.body.imageUrl == DirectImageUrl(resp.body.fileId)
      && resp.body.alternativeUrls == AlternativeUrls(DownloadUrl(resp.body.fileId), ThumbnailUrl(resp.body.fileId))
      && steps == UploadToDrive(api, image, now).1
      && steps[|steps| - 1] == ShareWithAnyone(resp.body.fileId)
  {
    var up := UploadToDrive(api, image, now);
    assert up.0.Success?;
  }

  /** A 200 answer to a POST says how it came about: every check passed, the
      first candidate was downloaded within the size limit, uploaded under
      its sniffed type and shared; the URLs name the new file. */
  lemma SuccessResponse(apiPassword: Option<string>, env: Env, httpMethod: string, body: Result<RequestBody, string>,
                        parser: UrlParser, web: Web, api: DriveApi, now: nat)
    requires httpMethod != "OPTIONS"
    requires Decide(apiPassword, env, httpMethod, body, parser, web, api, now).0.status == 200
    ensures Admitted(apiPassword, env, httpMethod, body, parser)
    ensures var postUrl := body.value.postUrl.value;
      && web.fetchPage(postUrl).Success?
      && var urls := CandidateUrls(parser, web.fetchPage(postUrl).value, parser.origin(postUrl));
      && urls.Success? && |urls.value| > 0
      && var image := web.fetchImage(urls.value[0]);
      && image.Success? && |image.value| <= MaxImageBytes
      && var (resp, trace) := Decide(apiPassword, env, httpMethod, body, parser, web, api, now);
      && resp.body.DriveUploadBody?
      && resp.body.originalImage == urls.value[0]
      && resp.body.message == SuccessMessage
      && resp.body.filename == DriveFilename(now, GetFileExtension(DetectImageMimeType(image.value)))
      && resp.body.imageUrl == DirectImageUrl(resp.body.fileId)
      && resp.body.alternativeUrls == AlternativeUrls(DownloadUrl(resp.body.fileId), ThumbnailUrl(resp.body.fileId))
      && trace == [FetchPage(postUrl), FetchImage(urls.value[0])] + UploadToDrive(api, image.value, now).1
      && trace[|trace| - 1] == ShareWithAnyone(resp.body.fileId)
  {
    var decided := Decide(apiPassword, env, httpMethod, body, parser, web, api, now);
    assert Admitted(apiPassword, env, httpMethod, body, parser);
    var postUrl := body.value.postUrl.value;
    assert decided == FromPostUrl(parser, postUrl, web, api, now);
    assert web.fetchPage(postUrl).Success?;
    var html := web.fetchPage(postUrl).value;
    var page := FromPage(parser, postUrl, html, web, api, now);
    assert decided == (page.0, [FetchPage(postUrl)] + page.1);
    var urls := CandidateUrls(parser, html, parser.origin(postUrl));
    assert urls.Success? && |urls.value| > 0;
    var imageUrl := urls.value[0];
    var download := DownloadImage(web.fetchImage(imageUrl));
    assert download.Success?;
    var image := download.value;
    assert image == web.fetchImage(imageUrl).value;
    var last := FromImage(imageUrl, image, api, now);
    assert page == (last.0, [FetchImage(imageUrl)] + last.1);
    FromImageSuccess(imageUrl, image, api, now);
    PrependTwo(FetchPage(postUrl), FetchImage(imageUrl), last.1);
  }

  // ---------------------------------------------------------------------
  // initializeGoogleDrive and the handler's module state.

  const OAuthRedirectUri := "https://developers.google.com/oauthplayground"
  const DriveApiVersion := "v3"

  /** An OAuth2 client with its refresh token set. */
  datatype OAuthClient = OAuthClient(clientId: Option<string>, clientSecret: Option<string>,
                                     redirectUri: string, refreshToken: Option<string>)
  datatype DriveClient = DriveClient(version: string, auth: OAuthClient)

  /** The client built from the environment of the first call that needs it. */
  function NewOAuthClient(env: Env): (c: OAuthClient)
    ensures c.clientId == Lookup(env, "GOOGLE_CLIENT_ID") && c.clientSecret == Lookup(env, "GOOGLE_CLIENT_SECRET")
    ensures c.redirectUri == OAuthRedirectUri
    ensures c.refreshToken == Lookup(env, "GOOGLE_REFRESH_TOKEN")
  {
    OAuthClient(Lookup(env, "GOOGLE_CLIENT_ID"), Lookup(env, "GOOGLE_CLIENT_SECRET"),
                OAuthRedirectUri, Lookup(env, "GOOGLE_REFRESH_TOKEN"))
  }

  /** The OAuth2 client once `initializeGoogleDrive` has run with `env`. */
  function AfterInit(client: Option<OAuthClient>, env: Env): (c: Option<OAuthClient>)
    ensures c.Some?
    ensures client.Some? ==> c == client
    ensures client.None? ==> c == Some(NewOAuthClient(env))
  {
    if client.Some? then client else Some(NewOAuthClient(env))
  }

  /** A handler run reached `uploadImageToDrive` exactly when it searched
      for the folder. */
  predicate ReachedUpload(trace: seq<Step>)
  {
    ListFolders(FolderQuery(FolderName)) in trace
  }

  /** The module instance of the function: the password fixed at load time
      and the lazily built clients kept between invocations. */
  class ServerlessFunction {
    const apiPassword: Option<string>
    var oauth2Client: Option<OAuthClient>
    var drive: Option<DriveClient>

    ghost predicate Valid()
      reads this
    {
      && (oauth2Client.None? <==> drive.None?)
      && (drive.Some? ==> drive.value == DriveClient(DriveApiVersion, oauth2Client.value))
    }

    /** Loading the module with `env` as its environment. */
    constructor (env: Env)
      ensures Valid()
      ensures apiPassword == ApiPassword(env)
      ensures oauth2Client == None && drive == None
    {
      apiPassword := ApiPassword(env);
      oauth2Client := None;
      drive := None;
    }

    /** Builds the clients on the first call only; every later call returns
        the same Drive client, whatever the environment says then. */
    method InitializeGoogleDrive(env: Env) returns (client: DriveClient)
      requires Valid()
      modifies this
      ensures Valid()
      ensures oauth2Client == AfterInit(old(oauth2Client), env)
      ensures drive == Some(client) && client == DriveClient(DriveApiVersion, oauth2Client.value)
      ensures old(drive).Some? ==> client == old(drive).value
    {
      if oauth2Client.None? {
        var auth := NewOAuthClient(env);
        oauth2Client := Some(auth);
        drive := Some(DriveClient(DriveApiVersion, auth));
      }
      client := drive.value;
    }

    method GetOrCreateFolder(env: Env, api: DriveApi, folderName: string)
      returns (folder: Result<string, string>, steps: seq<Step>)
      requires Valid()
      modifies this
      ensures Valid() && oauth2Client == AfterInit(old(oauth2Client), env)
      ensures (folder, steps) == FindOrCreateFolder(api, folderName)
    {
      var driveClient := InitializeGoogleDrive(env);
      var query := FolderQuery(folderName);
      steps := [ListFolders(query)];
      var listed := api.listFolders(query);
      if listed.Failure? {
        return Failure(FolderErrorPrefix + listed.error), steps;
      }
      if |listed.value| > 0 {
        return Success(listed.value[0]), steps;
      }
      steps := steps + [CreateFolder(folderName)];
      assert steps == [ListFolders(query), CreateFolder(folderName)];
      var created := api.createFolder(folderName);
      if created.Failure? {
        return Failure(FolderErrorPrefix + created.error), steps;
      }
      return Success(created.value), steps;
    }

    method UploadImageToDrive(env: Env, api: DriveApi, image: seq<byte>, now: nat)
      returns (r: Result<DriveResult, string>, steps: seq<Step>)
      requires Valid()
      modifies this
      ensures Valid() && oauth2Client == AfterInit(old(oauth2Client), env)
      ensures (r, steps) == UploadToDrive(api, image, now)
    {
      var driveClient := InitializeGoogleDrive(env);
      var mimeType := DetectImageMimeType(image);
      var extension := GetFileExtension(mimeType);
      var filename := DriveFilename(now, extension);
      var folder;
      folder, steps := GetOrCreateFolder(env, api, FolderName);
      if folder.Failure? {
        return Failure(UploadErrorPrefix + folder.error), steps;
      }
      steps := steps + [CreateFile(filename, mimeType, folder.value)];
      var created := api.createFile(filename, mimeType, folder.value);
      if created.Failure? {
        return Failure(UploadErrorPrefix + created.error), steps;
      }
      steps := steps + [ShareWithAnyone(created.value.id)];
      var shared := api.share(created.value.id);
      if shared.Fail? {
        return Failure(UploadErrorPrefix + shared.error), steps;
      }
      r := Success(ShapeResult(created.value, filename));
    }

    /** One invocation of the exported handler. The clients are built by the
        first invocation that reaches the upload and kept afterwards. */
    method Handle(env: Env, httpMethod: string, body: Result<RequestBody, string>,
                  parser: UrlParser, web: Web, api: DriveApi, now: nat)
      returns (resp: Response, trace: seq<Step>)
      requires Valid()
      modifies this
      ensures Valid()
      ensures (resp, trace) == Decide(apiPassword, env, httpMethod, body, parser, web, api, now)
      ensures oauth2Client == if ReachedUpload(trace) then AfterInit(old(oauth2Client), env) else old(oauth2Client)
    {
      trace := [];
      if httpMethod == "OPTIONS" {
        return Response(200, NoBody), trace;
      }
      if httpMethod != "POST" {
        return Response(405, ErrorBody("Method not allowed")), trace;
      }
      var environment := ValidateEnvironmentVariables(env);
      if environment.Fail? {
        return ServerError(environment.error), trace;
      }
      if body.Failure? {
        return ServerError(body.error), trace;
      }
      var data := body.value;
      if !ValidatePassword(apiPassword, data.password) {
        return Response(401, AuthFailure), trace;
      }
      if !Truthy(data.postUrl) {
        return Response(400, ErrorBody("Post URL is required")), trace;
      }
      if !parser.isValidUrl(data.postUrl.value) {
        return Response(400, ErrorBody("Invalid URL format")), trace;
      }
      resp, trace := FetchAndUpload(env, data.postUrl.value, parser, web, api, now);
    }

    /** The handler's steps from a valid post URL on: fetch the page,
        extract the candidates, download the first, upload it. */
    method FetchAndUpload(env: Env, postUrl: string, parser: UrlParser, web: Web, api: DriveApi, now: nat)
      returns (resp: Response, trace: seq<Step>)
      requires Valid()
      modifies this
      ensures Valid()
      ensures (resp, trace) == FromPostUrl(parser, postUrl, web, api, now)
      ensures oauth2Client == if ReachedUpload(trace) then AfterInit(old(oauth2Client), env) else old(oauth2Client)
    {
      trace := [FetchPage(postUrl)];
      var page := web.fetchPage(postUrl);
      if page.Failure? {
        return Response(400, ErrorBody("Failed to fetch WordPress post")), trace;
      }
      ghost var rest := FromPage(parser, postUrl, page.value, web, api, now);
      assert FromPostUrl(parser, postUrl, web, api, now) == (rest.0, trace + rest.1);
      var baseUrl := parser.origin(postUrl);
      var imageUrls := ExtractImageUrls(parser, page.value, baseUrl);
      if imageUrls.Failure? {
        assert trace + [] == trace;
        return ServerError(imageUrls.error), trace;
      }
      if |imageUrls.value| == 0 {
        assert trace + [] == trace;
        return Response(404, ErrorBody("No images found in the post")), trace;
      }
      var steps;
      resp, steps := DownloadAndUpload(env, imageUrls.value[0], web, api, now);
      trace := trace + steps;
      assert ReachedUpload(trace) <==> ReachedUpload(steps) by {
        assert forall step :: step in trace <==> step == FetchPage(postUrl) || step in steps;
      }
    }

    /** The handler's steps from the first candidate on. */
    method DownloadAndUpload(env: Env, imageUrl: string, web: Web, api: DriveApi, now: nat)
      returns (resp: Response, trace: seq<Step>)
      requires Valid()
      modifies this
      ensures Valid()
      ensures (resp, trace) == FromCandidate(imageUrl, web, api, now)
      ensures oauth2Client == if ReachedUpload(trace) then AfterInit(old(oauth2Client), env) else old(oauth2Client)
    {
      trace := [FetchImage(imageUrl)];
      var image := DownloadImage(web.fetchImage(imageUrl));
      if image.Failure? {
        return ServerError(image.error), trace;
      }
      var driveResult, steps := UploadImageToDrive(env, api, image.value, now);
      trace := trace + steps;
      assert trace[1] == steps[0];
      if driveResult.Failure? {
        return ServerError(driveResult.error), trace;
      }
      resp := Response(200, SuccessBody(driveResult.value, imageUrl));
    }
  }
}
