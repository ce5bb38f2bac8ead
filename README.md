# Blogger image uploader, modelled in Dafny

The uploader takes the URL of a WordPress post, fetches the page, and picks
candidate image references from it: the `og:image` meta tag, then the
`twitter:image` meta tag, then the first `<img>` tag. It downloads the first
candidate, refusing anything over 5 MiB. It then uploads the image
somewhere public and answers with the new image URL. There are two back ends
and one client:

- `api/process.js` is a Vercel serverless function. It checks its Google
  credentials and an optional API password, and it builds its Drive client
  lazily on first use. It sniffs the image type from magic bytes, uploads the
  file into a "WordPress Thumbnails" Drive folder (found or created), shares
  the file with anyone, and answers with three URL forms built from the file
  id.
- `API/api/process.js` is a long-running HTTP server. It has a small router
  and the same pipeline without a password. It uploads to the Drive root and
  then creates a Blogger draft post. It answers with the first `src="…"`
  value of that post.
- `UI/src/app/services/image.service.ts` is the Angular client. It posts
  `{ postUrl }` and turns a failed response into one message.

The model:

- **Regexes.** The four regular expressions are written out as leftmost-match
  functions over strings (`Patterns`). Each is proved equal to a declarative
  description of a match, including the greedy `[^>]+` of the `<img`
  pattern. `\s` is the ECMAScript white-space set (WhiteSpace plus
  LineTerminator, section 22.2.2.9 of ECMA-262).
- **The extractor** is the method `ExtractImageUrls`. It makes the source's
  three pushes onto a local list and is proved equal to the specification
  function `CandidateUrls`.
- **Media.** The sniffer, the extension table, the size gate and the file
  name are total functions (`Media`).
- **Serverless function.** It is a class: the password fixed at load time is
  a `const`, and the lazily built `oauth2Client`/`drive` pair are fields.
  Its methods follow the source's early-return chains. Each method is proved
  equal to a specification function (`Decide` and its stages) and states how
  the module state changes.
- **Server.** It has no state. Its listener methods are proved equal to
  `Route` and `Pipeline`.
- **Parameters for the outside world.** The outside world is a set of
  function-valued parameters: `Web` (`axios.get` of a page or an image),
  `DriveApi` (folder search, folder create, file create, share) and
  `Blogger` (`posts.insert`). So is the WHATWG URL parser (`UrlParser`:
  `isValidUrl`, `.origin`, resolution with `new URL(ref, base).href`). Each
  answer is a value, or the message of the error thrown. `Date.now()`
  readings are `nat` parameters.
- **Traces.** Each handler also returns the trace of external calls it made
  (`Step`). This is how "nothing is fetched before the checks pass" and "an
  oversized image never reaches Drive" are stated.

Three details of the code shape the model:

- The serverless function checks its environment variables before the
  password. An unreadable body is a 500 raised between those two checks.
- The extractor keeps a value verbatim when it starts with the literal
  `http`. So `httpfoo.png` is kept as it is, and `HTTPS://…` is resolved
  against the page's origin.
- The long-running server never validates its credentials. It only logs
  them at start-up.

## Model

| member | source | states |
|---|---|---|
| `Patterns.QuotedAt` | api/process.js:73 | `"([^"]+)"` at a position: the capture is the text from there up to the next `"`, which must be there, and is at least one character long; none when the position holds a `"` or no `"` follows |
| `Patterns.LastSrc` | api/process.js:93 | the greedy `[^>]+`: the last `src="` start with a quoted value, before the first `>` of the tag, at least one character after `<img` |
| `Patterns.CaptureAt` | api/process.js:73-93 | the capture of a pattern at one start position is non-empty and free of `"` |
| `Patterns.LeftmostFrom` | api/process.js:73-93 | the first start position with a match, and no match at any earlier position |
| `Patterns.FirstMatch` | api/process.js:73-93 | `html.match(re)?.[1]`: a non-empty capture without `"`, so `content=""` and `src=""` are never captured |
| `Patterns.MetaAtMatches` | api/process.js:73-83 | the meta patterns at one position, as computed by `MetaAt`, match exactly when the text splits there as `<meta`, a whole run of `\s` characters (`IsJsWhitespace`: ECMAScript WhiteSpace and LineTerminator), the attribute, another run, then `content="…"` |
| `Patterns.ImgAtMatches` | api/process.js:93 | the `<img` pattern at one position, as computed by `ImgAt`, captures `c` exactly when `c` follows the largest possible `src="` start inside the first tag |
| `Patterns.CaptureAtMatches` | api/process.js:73-93 | the computed capture at a position equals the declarative match, both directions |
| `Patterns.FirstMatchIsLeftmost` | api/process.js:73-93 | `FirstMatch` gives `c` exactly when some position matches with `c` and no earlier position matches at all |
| `Patterns.NoMatchAnywhere` | api/process.js:73-93 | `null` from `match` exactly when no position of the text matches |
| `Extractor.CollectOrder` | api/process.js:70-102 | pushing three optional hits in turn: at most three entries, in block order, each present exactly when its hit exists, equal values kept |
| `Extractor.HitsOrder` | api/process.js:69-103 | the raw captures `Hits` of the three `html.match` calls: `og:image` first, `twitter:image` next, the `<img>` capture last, `[]` exactly when nothing matches |
| `Extractor.ResolveAllPointwise` | api/process.js:75-78 | `ResolveAll`, the captures made absolute in order: success exactly when every capture resolves, and then each position holds `ResolveReference` of its capture; otherwise the message of the first capture that throws |
| `Extractor.ResolveAllSnoc` | api/process.js:79 | resolving one more hit appends its resolved value |
| `Extractor.ResolveAllStops` | api/process.js:77 | a throwing resolution ends the extraction, whatever follows |
| `Extractor.PushCandidate` | api/process.js:74-80 | one block: when its pattern matched, the resolved capture is pushed, or the throw ends the extraction |
| `Extractor.ResolveReference` | api/process.js:74-78 | a value starting with `http` is kept as it is; any other is exactly `new URL(ref, base).href` or the message it throws |
| `Extractor.CandidateUrls` | api/process.js:69-103 | one URL per matching pattern, at most three; none exactly when no pattern matches; a throw is that of resolving one of the captured values |
| `Extractor.ExtractImageUrls` | API/api/process.js:40-74 | the extractor as written, with its local list, equals the pointwise specification above; both files define it identically |
| `Media.DetectImageMimeType` | api/process.js:129-141 | one of four MIME types; PNG, GIF and WEBP exactly when their (4-byte or 3-byte) signature is present, JPEG otherwise, including short buffers |
| `Media.GetFileExtension` | api/process.js:144-152 | `jpg`, `png`, `gif` or `webp` for the four types, `jpg` for every other string |
| `Media.ExtensionOfDetected` | api/process.js:199-200 | the extension of a sniffed buffer follows its signature |
| `Media.TooLargeIff` | api/process.js:117-118 | the floating-point test `TooLarge`, `length / 2^20 > 5`, is exactly `length > 5242880` |
| `Media.DownloadImage` | api/process.js:106-126 | success exactly when the body is at most 5242880 bytes, with the bytes unchanged; every failure prefixed `Failed to download image: `, an oversized body with exactly `…Image size exceeds 5MB limit` |
| `Media.DriveFilename` | api/process.js:198-201 | `push-image-<timestamp>.<ext>` reads back as its timestamp and extension |
| `Media.FilenameInjective` | api/process.js:201 | distinct timestamps or extensions give distinct file names |
| `Drive.FindOrCreateFolder` | api/process.js:155-192 | the search `FolderQuery` (`name=…`, the folder MIME type, not trashed) comes first; the first folder found is reused; a folder is created exactly when the search found none, and then the answer is `createFolder`'s id or its wrapped error; failures prefixed `Failed to get/create folder: ` |
| `Drive.UrlsInjective` | api/process.js:242-248 | distinct files never share a URL |
| `Drive.DirectImageUrl` | api/process.js:242 | the `lh3.googleusercontent.com/d/` form gives back the file id it was built from |
| `Drive.DownloadUrl` | api/process.js:245 | the `uc?id=` form gives back the file id it was built from |
| `Drive.ThumbnailUrl` | api/process.js:248 | the `thumbnail?id=…&sz=w1000` form gives back the file id it was built from |
| `Drive.ShapeResult` | api/process.js:250-259 | the returned record's three URLs all name the uploaded file |
| `Drive.UploadToDrive` | api/process.js:195-265 | succeeds exactly when the folder was found or created, the file created in it and the share granted; the result is then built from `files.create`'s answer under the sniffed file name; calls in the order folder, create, share; every failure is the answer's message prefixed `Failed to upload to Google Drive: ` |
| `Serverless.Unset` | api/process.js:8-12 | the collected names are at most the names tested |
| `Serverless.UnsetMembers` | api/process.js:9-11 | a name is collected exactly when it is one of the three and not set (undefined or empty) |
| `Serverless.UnsetAppend` | api/process.js:9-11 | the collector keeps the order in which the names are tested |
| `Serverless.EnvironmentCheck` | api/process.js:13-15 | passes exactly when all three variables are set; otherwise the message lists the missing ones `, `-joined |
| `Serverless.ValidateEnvironmentVariables` | api/process.js:7-16 | the collector with its local array and pushes equals the specification |
| `Serverless.ApiPassword` | api/process.js:19 | `API_PASSWORD \|\| null`: present exactly when the variable is set and non-empty |
| `Serverless.ValidatePassword` | api/process.js:22-27 | with no password configured, everything (absent included) is accepted; otherwise only the identical string |
| `Serverless.PasswordCheck` | api/process.js:19-27 | the same in terms of the environment the module was loaded with |
| `Serverless.FromImage` | api/process.js:337-355 | 200 exactly when the Drive upload succeeded, with the `SuccessBody` (`success: true`, the candidate as `originalImage`); otherwise the 500 of the upload's message; the calls are the upload's |
| `Serverless.FromCandidate` | api/process.js:331-355 | the image is fetched first; a failed download is a 500 with its message and nothing more; after a download, 200 exactly when the upload succeeded, else the upload's 500 |
| `Serverless.FromPage` | api/process.js:322-355 | 404 with no call exactly when no URL was extracted; a throwing resolution is its 500 with no call; otherwise the first candidate decides |
| `Serverless.FromPostUrl` | api/process.js:308-355 | the page is fetched first; 400 `Failed to fetch WordPress post` exactly when that fetch fails |
| `Serverless.FromBody` | api/process.js:292-355 | 401 exactly for a refused password; any call happens exactly when the password, a `Truthy` URL (present and non-empty) and a valid URL pass; `Invalid URL format` for an invalid one |
| `Serverless.Decide` | api/process.js:269-357 | no body exactly for OPTIONS; 405 exactly for a method other than OPTIONS and POST; a call happens exactly when every check passes |
| `Serverless.CheckOrder` | api/process.js:276-320 | OPTIONS 200 with no body, 405, missing variables, unreadable body, 401, missing URL, invalid URL `Invalid URL format`, failed page fetch, in that order; a call to another service happens exactly when all checks pass, and the first is the page fetch |
| `Serverless.ThrownErrorsAre500` | api/process.js:322-355 | after the page fetch, a throwing resolution, a failed download or a failed upload ends in a 500 whose `error` is that message |
| `Serverless.NoImagesFound` | api/process.js:322-328 | a page where no pattern matches gives 404 after the page fetch only |
| `Serverless.OversizeImageNotUploaded` | api/process.js:331-334 | an image over 5 MiB gives exactly `Failed to download image: Image size exceeds 5MB limit` and no Drive call |
| `Serverless.FromImageSuccess` | api/process.js:338-351 | after the download, a 200 names the uploaded file's URLs and the sniffed file name, and sharing was the last call |
| `Serverless.SuccessResponse` | api/process.js:285-351 | every 200 to a POST passed all checks, downloaded the first candidate within the limit, and answers with it as `originalImage` and with the new file's URLs |
| `Serverless.FromCandidateWellFormed` | api/process.js:333-355 | from the download on, the answer is a 200 upload body or a 500 `{error}` |
| `Serverless.FromPageWellFormed` | api/process.js:322-355 | from the page on, the answer is a 200 upload body, a 404 `{error}` or a 500 `{error}` |
| `Serverless.DecideWellFormed` | api/process.js:269-357 | six statuses only, each with its own body: 400 and 404 always carry a non-empty `error` |
| `Serverless.AfterInit` | api/process.js:33-45 | an existing client is kept; otherwise the one built from that call's environment |
| `Serverless.NewOAuthClient` | api/process.js:36-45 | the client id, secret and refresh token are the call's `GOOGLE_CLIENT_ID`, `GOOGLE_CLIENT_SECRET` and `GOOGLE_REFRESH_TOKEN` (undefined when absent), with the OAuth playground redirect |
| `Serverless.ServerlessFunction.constructor` | api/process.js:19-31 | loading the module fixes the password and leaves both clients null |
| `Serverless.ServerlessFunction.InitializeGoogleDrive` | api/process.js:33-56 | clients are built on the first call only, from that call's environment; later calls return the same Drive client |
| `Serverless.ServerlessFunction.GetOrCreateFolder` | api/process.js:155-192 | equals `FindOrCreateFolder` and initialises the clients |
| `Serverless.ServerlessFunction.UploadImageToDrive` | api/process.js:195-265 | equals `UploadToDrive` and initialises the clients |
| `Serverless.ServerlessFunction.DownloadAndUpload` | api/process.js:331-351 | the handler from the first candidate on equals its specification; clients built exactly when Drive was reached |
| `Serverless.ServerlessFunction.FetchAndUpload` | api/process.js:308-351 | the handler from a valid URL on equals its specification; clients built exactly when Drive was reached |
| `Serverless.ServerlessFunction.Handle` | api/process.js:269-357 | one invocation equals `Decide`; the clients change only on the first invocation that reaches the upload |
| `Server.UploadToRoot` | API/api/process.js:100-129 | always `push-image-<now>.jpg`, `image/jpeg`, in `root`, whatever the bytes; with `drive` declared it succeeds exactly when `files.create` does, with its answer, or fails with its message prefixed `Failed to upload to Google Drive: `; with `drive` undeclared, it fails at once |
| `Server.PostTitle` | API/api/process.js:134-154 | `Push Image ` and then the clock reading in decimal, which reads back as that reading |
| `Server.UploadToBlogger` | API/api/process.js:132-178 | a failed Drive upload or `posts.insert` gives its own message prefixed `Failed to upload image to Blogger: `; a created post gives its first `src="…"` value exactly when it has one, and otherwise `Could not extract image URL from Blogger response`; the post follows the upload in the trace |
| `Server.UndeclaredDriveFailsUpload` | API/api/process.js:111 | as written, the Blogger step always fails with `…Failed to upload to Google Drive: drive is not defined`, before any call |
| `Server.PipelineFromCandidate` | API/api/process.js:250-270 | the image is fetched first; a failed download or Blogger step is a 500 with its message; after a download, 200 exactly when the Blogger step succeeded, with the `BloggerBody` of its URL, the candidate and the blog id |
| `Server.PipelineFromPage` | API/api/process.js:239-270 | 404 with no call exactly when no URL was extracted; a throwing resolution is its 500 with no call; otherwise the first candidate decides |
| `Server.PipelineFromUrl` | API/api/process.js:223-270 | the page is fetched first; 400 `Failed to fetch WordPress post` exactly when that fetch fails |
| `Server.Pipeline` | API/api/process.js:206-271 | a call happens exactly when the body parses and the URL is truthy and valid, and the first is the page fetch; a 200 carries `BLOGGER_BLOG_ID` as `blogId` |
| `Server.Route` | API/api/process.js:183-291 | only `POST /api/process` calls out; no body exactly for OPTIONS; the service description exactly for `GET /` |
| `Server.Routing` | API/api/process.js:190-290 | OPTIONS on any path 200 empty, `GET /` the service description, `POST /api/process` answered by the pipeline, everything else 404 `Not found`, and only the pipeline calls out |
| `Server.PipelineChecks` | API/api/process.js:207-237 | 500 for an unparsable body, then 400 for a falsy URL, an invalid URL, a failed fetch `Failed to fetch WordPress post`; nothing fetched before the URL is valid; the `password` property makes no difference |
| `Server.PipelineOutcomes` | API/api/process.js:239-270 | after the page fetch, 404 `No images found in the post` exactly when no pattern matches; a throwing resolution, a failed download or a failed Blogger step is a 500 with that raw message |
| `Server.AsWrittenUploadFails` | API/api/process.js:250-270 | as written, once the first candidate downloads, the answer is always the undeclared-`drive` 500 |
| `Server.AsWrittenNeverSucceeds` | API/api/process.js:256-264 | as written, no `POST /api/process` is ever answered with 200 |
| `Server.DeclaredDriveSucceeds` | API/api/process.js:250-264 | with `drive` declared and every call succeeding, the answer is 200 with the post's image URL, the first candidate and the blog id |
| `Server.PipelineSuccess` | API/api/process.js:239-264 | every 200 from the pipeline needs a declared `drive` and answers with the Blogger URL and the first candidate |
| `Server.ProcessRequest` | API/api/process.js:206-271 | the `end` callback as written equals `Pipeline` |
| `Server.HandleRequest` | API/api/process.js:183-291 | the listener as written equals `Route` |
| `Runtime.ErrorField` | UI/src/app/services/image.service.ts:32 | `error.error?.error`: present exactly for `{error}` and `{error, message}` bodies, and then the `error` member itself |
| `Runtime.ServerError` | api/process.js:353-355 | a caught error becomes a 500 whose `error` member is the thrown message |
| `ImageService.ProcessRequestBody` | UI/src/app/services/image.service.ts:12-27 | the client posts the URL and no password |
| `ImageService.ErrorMessage` | UI/src/app/services/image.service.ts:28-39 | 400, 404 and 500 show a truthy server `error` as is, else their own default; every other status shows the generic message; never empty |
| `ImageService.PasswordProtectedFunctionRefusesClient` | UI/src/app/services/image.service.ts:25-27 | against a function loaded with `API_PASSWORD`, every client request is a 401 before any fetch, shown as the generic message |
| `ImageService.OpenFunctionAdmitsClient` | UI/src/app/services/image.service.ts:25 | without a password, the function admits a client request exactly when the URL is non-empty and valid |
| `ImageService.ServerlessErrorsShown` | UI/src/app/services/image.service.ts:29-36 | what the user is `Shown` for the function's answers: its 401 and 405 as the generic message, its 400 and 404 with their own `error` |
| `ImageService.ServerAsWrittenShown` | UI/src/app/services/image.service.ts:35-36 | against the server as written, a downloaded image always ends in the undeclared-`drive` message |

## Left out

- Network I/O: the `axios.get` timeouts and User-Agent header, the OAuth2 token exchange, and every googleapis request. They appear only as the answers in `Web`, `DriveApi` and `Blogger`. An answer does not depend on which client object made the call.
- The WHATWG URL parser: `new URL(s)`, `.origin` and `new URL(ref, base).href` are the uninterpreted fields of `UrlParser`.
- `new URL(req.url, 'http://' + host)` in the server: its `pathname` is an input, and a throw while building it is not modelled.
- HTTP mechanics: the server's `body += chunk` accumulation, Vercel's body parsing, and `JSON.parse`. The request body is an input: the `postUrl` and `password` properties, or the message thrown while parsing or reading it.
- A `postUrl` or `password` that is not a string (a number, an object) is not modelled. An absent property is None.
- A page that `axios` parses as JSON rather than text is not modelled. So is the throw that `html.match` would give then. The page is a string.
- Drive answers: `files` missing from a search answer is modelled as an empty list. An `id` missing from a found folder is not modelled.
- Concurrency: the check-then-create race of the folder lookup, and two invocations sharing the lazily built clients at the same time.
- CORS headers, `console` logging, the `Readable.from` stream, the HTML template of the Blogger post with its `toLocaleString()` date, and `server.listen`.
- `Date.now()`: the serverless upload's reading is the parameter `now`. The server reads the clock twice, as `postNow` (title) and `driveNow` (file name).
- Module-load code of the server (building `oauth2Client` and `blogger`) has no logic beyond construction and is left out. So is the serverless function seeing a different `process.env` between loading and a call: the password comes from the load-time environment, everything else from the call's.
- Media.GetFileExtension: does not model the names that `extensions[mimeType]` inherits from `Object.prototype` (`constructor`, `toString`, …). For those the source returns a function rather than `jpg`; here they give `jpg`. Those strings are never produced by the sniffer.
- Media.DownloadImage: takes the byte length of the downloaded buffer; the floating-point division is modelled as exact real division, which agrees with the double result for every buffer length a Buffer can have.
- The Angular `HttpClient`, `Observable`, and a non-string truthy `error` member in a failed response are not modelled. The generator page, the clipboard helper and the static endpoints (`API/server.js`, `api/hello.js`, `index.js`, `API/index.js`) are not part of this model.

## Findings

| source | as written | input that shows it | evidently intended | confidence | as-written member | corrected member |
|---|---|---|---|---|---|---|
| API/api/process.js:111 | `uploadImageToDrive` calls `drive.files.create`, but the file declares only `oauth2Client` (line 7) and `blogger` (line 17), so the call throws `ReferenceError: drive is not defined` and the request ends in 500 `Failed to upload image to Blogger: Failed to upload to Google Drive: drive is not defined` | any `POST /api/process` with a valid `postUrl` whose page has a candidate that downloads within 5 MiB | a Drive client declared beside `blogger`, as `api/process.js:48-51` does, so that the upload and the Blogger post can succeed and the 200 branch is reachable | not executed | `Server.AsWrittenNeverSucceeds` | `Server.DeclaredDriveSucceeds` |

