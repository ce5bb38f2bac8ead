/** What both handlers share with their surroundings: the process
    environment, the external calls they make (as a trace of steps and as
    the answers the outside world gives), and the JSON responses they send. */
module Runtime {
  import opened Wrappers
  import opened Media

  /** `process.env`: every variable that is defined, with its value. */
  type Env = map<string, string>

  /** `!!process.env[name]`: defined and not the empty string. */
  predicate IsSet(env: Env, name: string)
  {
    name in env && env[name] != ""
  }

  /** `process.env[name]`, `undefined` as None. */
  function Lookup(env: Env, name: string): (v: Option<string>)
    ensures v.Some? <==> name in env
    ensures v.Some? ==> v.value == env[name]
  {
    if name in env then Some(env[name]) else None
  }

  /** One call a handler makes to another service, in the order made. */
  datatype Step =
    | FetchPage(url: string)
    | FetchImage(url: string)
    | ListFolders(query: string)
    | CreateFolder(name: string)
    | CreateFile(name: string, mimeType: string, parent: string)
    | ShareWithAnyone(fileId: string)
    | InsertPost(blogId: Option<string>, title: string, labels: seq<string>, status: string)

  /** Two steps put in front of a trace one after the other. */
  lemma PrependTwo(a: Step, b: Step, steps: seq<Step>)
    ensures [a] + ([b] + steps) == [a, b] + steps
  {
    assert ([a] + ([b] + steps))[..2] == [a, b];
    assert ([a] + ([b] + steps))[2..] == steps;
  }

  /** What `axios.get` answers: the page text for a URL, or the body bytes
      of an image; Failure carries the message of the error thrown. */
  datatype Web = Web(
    fetchPage: string -> Result<string, string>,
    fetchImage: string -> Result<seq<byte>, string>)

  /** The parsed request body as the handlers read it: `data.postUrl` and
      `data.password`, each None when the property is absent. */
  datatype RequestBody = RequestBody(postUrl: Option<string>, password: Option<string>)

  /** JavaScript truthiness of an optional string. */
  predicate Truthy(v: Option<string>)
  {
    v.Some? && v.value != ""
  }

  datatype AlternativeUrls = AlternativeUrls(driveDownload: string, driveThumbnail: string)

  /** The JSON bodies the handlers send. A member whose value is `undefined`
      is dropped by `JSON.stringify`, hence the Option fields. */
  datatype Body =
    | NoBody
    | ErrorBody(error: string)
    | AuthFailureBody(error: string, message: string)
    | DriveUploadBody(success: bool, imageUrl: string, filename: string, fileId: string,
                      alternativeUrls: AlternativeUrls, driveViewLink: Option<string>,
                      originalImage: string, message: string)
    | BloggerUploadBody(imageUrl: string, originalImage: string, blogId: Option<string>)
    | ServiceInfoBody(message: string, endpoints: seq<(string, string)>)

  datatype Response = Response(status: int, body: Body)

  /** The `error` member of a response body, as a client reads it. */
  function ErrorField(body: Body): (e: Option<string>)
    ensures e.Some? <==> body.ErrorBody? || body.AuthFailureBody?
    ensures body.ErrorBody? || body.AuthFailureBody? ==> e == Some(body.error)
  {
    match body
    case ErrorBody(error) => Some(error)
    case AuthFailureBody(error, _) => Some(error)
    case _ => None
  }

  /** `res.status(500).json({ error: error.message })` in a catch block. */
  function ServerError(message: string): (r: Response)
    ensures r.status == 500 && ErrorField(r.body) == Some(message)
  {
    Response(500, ErrorBody(message))
  }
}
