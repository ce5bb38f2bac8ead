/** `ImageService.processPost` of the Angular client: the request it sends
    and the message of the error its Observable fails with, and what a user
    sees when the client talks to either back end. */
module ImageService {
  import opened Wrappers
  import opened Url
  import opened Runtime
  import Extractor
  import Media
  import Drive
  import Serverless
  import Server

  const ApiUrl := "/api/process"
  const GenericMessage := "An error occurred while processing your request"

  /** The statuses that have a message of their own, with the message used
      when the response body has no truthy `error` member. */
  const Fallbacks: map<int, string> :=
    map[400 := "Invalid request", 404 := "No images found in the post", 500 := "Server error occurred"]

  /** The body `processPost` posts: `{ postUrl }`, with no password. */
  function ProcessRequestBody(postUrl: string): (b: RequestBody)
    ensures b.postUrl == Some(postUrl) && b.password == None
  {
    RequestBody(Some(postUrl), None)
  }

  /** The message for a failed request, from its status (0 when no response
      arrived) and the `error` member of the body, if any. */
  function ErrorMessage(status: int, serverError: Option<string>): (m: string)
    ensures status == 400 ==> m == (if Truthy(serverError) then serverError.value else "Invalid request")
    ensures status == 404 ==> m == (if Truthy(serverError) then serverError.value else "No images found in the post")
    ensures status == 500 ==> m == (if Truthy(serverError) then serverError.value else "Server error occurred")
    ensures status != 400 && status != 404 && status != 500 ==> m == GenericMessage
    ensures m != ""
  {
    if status in Fallbacks then
      (if Truthy(serverError) then serverError.value else Fallbacks[status])
    else GenericMessage
  }

  /** What a user sees for a response of either back end. */
  function Shown(resp: Response): string
  {
    ErrorMessage(resp.status, ErrorField(resp.body))
  }

  /** The client never sends a password, so against a serverless function
      loaded with `API_PASSWORD` set, every submission is refused with 401
      before anything is fetched, and the user sees only the generic
      message, not the reason. */
  lemma PasswordProtectedFunctionRefusesClient(loadEnv: Env, env: Env, postUrl: string, parser: UrlParser,
                                                web: Web, api: Drive.DriveApi, now: nat)
    requires IsSet(loadEnv, Serverless.ApiPasswordVariable)
    requires Serverless.EnvironmentCheck(env).Pass?
    ensures var (resp, trace) := Serverless.Decide(Serverless.ApiPassword(loadEnv), env, "POST",
                                                   Success(ProcessRequestBody(postUrl)), parser, web, api, now);
      && resp == Response(401, Serverless.AuthFailure)
      && trace == []
      && Shown(resp) == GenericMessage
  {
  }

  /** Without a password configured the function admits the client's
      request exactly when the post URL is non-empty and valid. */
  lemma OpenFunctionAdmitsClient(loadEnv: Env, env: Env, postUrl: string, parser: UrlParser)
    requires !IsSet(loadEnv, Serverless.ApiPasswordVariable)
    requires Serverless.EnvironmentCheck(env).Pass?
    ensures Serverless.Admitted(Serverless.ApiPassword(loadEnv), env, "POST", Success(ProcessRequestBody(postUrl)), parser)
        <==> postUrl != "" && parser.isValidUrl(postUrl)
  {
  }

  /** Every 400, 404 and 500 of the serverless function carries a non-empty
      `error`, which the client shows as it is; its 401 and 405 are shown as
      the generic message. */
  lemma ServerlessErrorsShown(apiPassword: Option<string>, env: Env, httpMethod: string,
                              body: Result<RequestBody, string>, parser: UrlParser, web: Web,
                              api: Drive.DriveApi, now: nat)
    ensures var resp := Serverless.Decide(apiPassword, env, httpMethod, body, parser, web, api, now).0;
      && (resp.status == 401 || resp.status == 405 ==> Shown(resp) == GenericMessage)
      && (resp.status in {400, 404} ==> ErrorField(resp.body).Some? && Shown(resp) == ErrorField(resp.body).value)
  {
    Serverless.DecideWellFormed(apiPassword, env, httpMethod, body, parser, web, api, now);
  }

  /** Against the server as written, once the image is downloaded the user
      always sees the undeclared-`drive` failure. */
  lemma ServerAsWrittenShown(parser: UrlParser, postUrl: string, html: string, web: Web, blogger: Server.Blogger,
                             blogId: Option<string>, postNow: nat, driveNow: nat)
    requires var urls := Extractor.CandidateUrls(parser, html, parser.origin(postUrl));
      urls.Success? && |urls.value| > 0 && Media.DownloadImage(web.fetchImage(urls.value[0])).Success?
    ensures Shown(Server.PipelineFromPage(parser, postUrl, html, web, Server.Undeclared, blogger, blogId, postNow, driveNow).0)
         == Server.BloggerErrorPrefix + Drive.UploadErrorPrefix + Server.UndeclaredDriveMessage
  {
    Server.AsWrittenUploadFails(parser, postUrl, html, web, blogger, blogId, postNow, driveNow);
  }
}
