# n8n template gallery — a Dafny model of its core logic

The template gallery is a small web application. It lists n8n workflow templates kept as
JSON objects in an S3 bucket, lets a user upload new ones, and imports a chosen template
into an n8n instance. The server (`server.js`) and a React client (`src/`) share the work.

This project models the decisions and string and list logic of that application, and
proves what they promise:

- **Server: endpoint and headers.** Where the import route posts a workflow
  (`buildWorkflowEndpoint`). Which credentials it sends (`buildAuthHeaders`).
- **Server: import route.** The order of its checks and the payload it forwards.
- **Server: templates.** How uploaded templates are validated and normalised
  (`normalizeTemplatePayload`). How names become identifiers (`slugifyName`).
- **Server: S3.** How the S3 storage path is parsed (`parseS3Path`), how object URLs,
  keys and query strings are formed, and the `.json` listing filter.
- **Server: request signing.** The canonical request of AWS Signature Version 4.
- **Server: AWS credentials.** The credential cache and its expiry rule.
- **Client: slugs and direct import.** The slug function, which agrees with the
  server's. The headers, URL and body of a direct import (`src/utils/n8nClient.ts`).
- **Client: gallery page.** Its list operations (`src/App.tsx`).
- **Client: upload form.** How it turns its fields into a template
  (`src/components/TemplateUploadModal.tsx`).

Modules, one per concern:

- **Helper modules:**
  - `Options`: option and result wrappers.
  - `Seqs`: filter, map and subsequence.
  - `JsStrings`: JavaScript `trim`, `toLowerCase`, `split`/`join` and string order.
  - `JsValues`: JSON-shaped values, truthiness, property lookup, assignment and object spread.
  - `Sorting`: a stable sort by key.
  - `Urls`: the part of the URL parser the server reads.
- **Server:**
  - `WorkflowEndpoint`, `AuthHeaders`, `ImportRoute`;
  - `S3Storage`, `CanonicalRequest`, `AwsCredentials`;
  - `Slug` (server and client), `TemplatePayload`.
- **Client:** `Templates` (the `WorkflowTemplate` record), `N8nClient`, `Gallery`, `UploadForm`.

How outside inputs enter the model:

- **Environment variables** are plain strings, with `""` standing for an unset variable.
  JavaScript treats both as falsy in every place they are read.
- **Clocks** are parameters: `now`, and `later` for a second reading.
- **Foreign functions** are function parameters:
  - base64 (`Buffer`, `btoa`);
  - `encodeURIComponent`;
  - `JSON.parse` (`None` when it throws);
  - `Number()` applied to non-numbers;
  - reading a template file from disk.
- **Web-identity fetch.** What the STS call would return is an input value.
- **Thrown errors** are error results:
  - `Err(..)` for the normaliser and the upload form;
  - `Thrown` for a base URL the parser rejects;
  - `Failed` for missing AWS credentials.

Behaviour of the code that a reader might not expect, which the model keeps as written:

- **Normalisation is not always idempotent.** Normalising an already normalised payload can
  change it when `estimatedSetupMinutes` converts to `0`, for example the text `"0"`: the
  first pass stores `0`, and the second pass drops it to `undefined`.
  `TemplatePayload.NormalizeIdempotent` proves idempotence under the condition that the
  converted minutes are absent or non-zero. `TemplatePayload.ZeroMinutesNotIdempotent`
  shows that the condition is needed.
- **`id` and `name` handling.** `normalizeTemplatePayload` calls `slugifyName(template.name)` when there is
  no truthy `id`. A `name` that is truthy but not a string makes that call throw a
  `TypeError`. The model returns `Err(TypeError)` in that case. It does the same for
  `credentials` that are neither missing nor an array.
- **Empty API-key header.** An `x-n8n-api-key` header that is present but empty is still a string, so
  `buildAuthHeaders` never looks at the body or the environment key
  (`AuthHeaders.EmptyHeaderKeyShadows`).
- **Trailing hyphen after the cut.** The 80-character cut of the slug happens after the hyphen strip, so a result can
  end in `-`, and such a result is then not a fixed point of the slug function
  (`Slug.TrailingHyphenSurvivesCut`).
- **Suffixed upload ids can collide.** The upload form's suffixed id `slug-<ms>` is not checked
  against the existing ids again (`UploadForm.SuffixedIdMayCollide`).
- **A key named `.json`.** `path.basename(key, '.json')` gives `''` for the key `.json`
  itself, but `.json` for a key such as `a/.json` (`S3Storage.IdFromKey`, `S3Storage.DotJsonSegment`).
- **Existing workflows path is replaced.** A base URL whose path already contains `workflows`, such as a resolved
  `https://host/rest/workflows`, is rewritten to `/api/v1/workflows`
  (`WorkflowEndpoint.ResolvedRestEndpointIsRewritten`).

## Model

| member | source | states |
|---|---|---|
| WorkflowEndpoint.BuildWorkflowEndpoint | server.js:17-45 | a configured `N8N_WORKFLOWS_ENDPOINT` is returned as it is; the result is `null` exactly when the preferred base, `N8N_API_BASE` and `N8N_API_URL` are all unset; otherwise the chosen base decides |
| WorkflowEndpoint.RawBase | server.js:23 | a truthy preferred base wins, then `N8N_API_BASE`, then `N8N_API_URL` |
| WorkflowEndpoint.WorkflowsPath | server.js:31-43 | the new pathname always ends in `/workflows`; a path holding `/api/v1/` or `/rest/` but not `workflows` is kept and gets `workflows` after exactly one slash; every other path becomes `/api/v1/workflows` |
| WorkflowEndpoint.EndpointFromBase | server.js:26-44 | a non-string base throws; a string base gives an endpoint exactly when it parses as a URL once it ends in `/`, and throws otherwise; the result is never `null` |
| WorkflowEndpoint.PreferredBaseWins | server.js:23 | with a truthy preferred base, the environment bases do not affect the result |
| WorkflowEndpoint.ApiBaseBeforeApiUrl | server.js:23 | without a preferred base, `N8N_API_BASE` makes `N8N_API_URL` irrelevant |
| WorkflowEndpoint.ApiUrlLast | server.js:23-24 | `N8N_API_URL` is used only when nothing earlier in the chain is set |
| WorkflowEndpoint.HostRootGetsDefaultPath | server.js:42-44 | `https://<host>` resolves to `https://<host>/api/v1/workflows` |
| WorkflowEndpoint.RestBaseGetsWorkflows | server.js:26-40 | `https://<host>/rest` and `https://<host>/rest/` both resolve to `https://<host>/rest/workflows` |
| WorkflowEndpoint.ResolvedRestEndpointIsRewritten | server.js:37-44 | a base that already ends in `/rest/workflows` is rewritten to `/api/v1/workflows` |
| AuthHeaders.ChosenApiKey | server.js:49-56 | the key is the request header when it is a string, else `body.apiKey` when it is a string, else `N8N_API_KEY` |
| AuthHeaders.BuildAuthHeaders | server.js:47-75 | headers are `Content-Type: application/json` plus exactly one more header. A non-empty key gives `X-N8N-API-KEY` and no `Authorization`. Otherwise a bearer token gives `Bearer <token>`, else both Basic variables give `Basic <base64(user:pass)>`. The result is `null` exactly when none applies |
| AuthHeaders.BearerBeforeBasic | server.js:63-66 | without a key, a bearer token wins whatever the Basic variables are |
| AuthHeaders.BasicNeedsBoth | server.js:68-74 | Basic credentials are used only with neither key nor token, and only when both user and password are set |
| AuthHeaders.HeaderKeyWins | server.js:51-56 | a non-empty header key makes the body and environment keys irrelevant |
| AuthHeaders.EmptyHeaderKeyShadows | server.js:51-56 | an empty header key still shadows the body and environment keys |
| ImportRoute.Resolved | server.js:407-412 | the workflow is the body's `workflow` when truthy, else the template file of a truthy `templateId` |
| ImportRoute.ImportPayload | server.js:432-437 | the payload has exactly `name`, `nodes`, `connections` and `settings`, in that order. The name is the body's `name`, else the workflow's name, else the default. `settings` is the workflow's when truthy, else `{}` |
| ImportRoute.DecideImport | server.js:406-437 | refuses for a missing template exactly when the workflow or its nodes or connections are falsy; refuses for credentials exactly when the workflow is usable and no auth headers exist; refuses for the address exactly when both are fine and no endpoint is configured; throws exactly when both are fine and the base does not parse; forwards the built headers, the endpoint and the payload whenever both are fine and an endpoint exists |
| ImportRoute.TemplateCheckedFirst | server.js:414-416 | an unusable workflow (`ImportRoute.HasWorkflow` false: the resolved workflow, its nodes or its connections falsy) is refused whatever the credentials and the endpoint configuration are |
| ImportRoute.CredentialsBeforeEndpoint | server.js:418-431 | missing credentials are reported whatever the endpoint configuration is |
| ImportRoute.InlineWorkflowWins | server.js:409-412 | an inline workflow is used and no template file is read |
| ImportRoute.ForwardedPayload | server.js:414-437 | a forwarded request carries truthy nodes, connections and name, and the JSON content type |
| S3Storage.AsPrefix | server.js:95-104 | a key prefix is empty for an empty path; otherwise it starts with the path and is one `/` longer exactly when the path does not already end in `/` |
| S3Storage.FromSegments | server.js:91-110 | the `s3://` and bare forms give `null` exactly when there is no non-empty `/` segment; otherwise the bucket is the first such segment and the prefix, empty or ending in `/`, has exactly the remaining segments in order |
| S3Storage.ParseS3Path | server.js:88-112 | empty input gives `null`; every result's prefix is empty or ends in `/`; an `s3://` path gives `null` exactly when it has no non-empty segment, and otherwise its first segment is the bucket |
| S3Storage.PrefixSegments | server.js:95-96 | a prefix built by joining clean segments with `/` has exactly those segments |
| S3Storage.BareForm | server.js:99-110 | input without a colon is not a URL and is read by segments, as the bare form |
| S3Storage.ParseHttpsPath | server.js:99-105 | `https://<host>/<path>` gives the host's first label as the bucket and the path, ending in `/`, as the prefix |
| S3Storage.S3FormRoundTrip | server.js:91-96 | `s3://bucket/a/b` parses to that bucket and the prefix `a/b/` (`s3://bucket` to the empty prefix) |
| S3Storage.BaseUrlRoundTrip | server.js:98-117 | the bucket base URL parses back to its bucket with an empty prefix |
| S3Storage.StorageConfig | server.js:316-322 | the configuration exists exactly when the path parses, and then holds the parsed bucket and prefix; the region is `AWS_REGION`, else `AWS_DEFAULT_REGION`, else `us-east-1` |
| S3Storage.BuildS3BaseUrl | server.js:114-117 | `https://<bucket>.s3.amazonaws.com` for an empty region or `us-east-1`, else `https://<bucket>.s3.<region>.amazonaws.com` |
| S3Storage.EncodePathSegments | server.js:134-139 | `S3Storage.EncodePath` (`encodePath`) encodes each `/` segment of the key on its own: with an encoding that never yields `/`, the encoded key has one encoded segment per key segment |
| S3Storage.EncodePathDecodes | server.js:134-139 | decoding each segment of the encoded key gives the key back |
| S3Storage.ObjectUrl | server.js:269-271 | the object URL is the base URL, `/`, and then the encoded key without its one leading `/` |
| S3Storage.ObjectUrlKey | server.js:269-271 | decoding the path of an object URL segment by segment gives the key without its leading `/` |
| S3Storage.JsonKeys | server.js:296 | every listed key ends in `.json` |
| S3Storage.JsonKeysExactly | server.js:296 | the listing keeps exactly the keys ending in `.json`, in their order |
| S3Storage.IdFromKey | server.js:374 | the id has no `/`, and the key `.json` itself gives the empty id |
| S3Storage.DotJsonSegment | server.js:374 | a key whose last segment is `.json` after a `/` is listed under `.json` |
| S3Storage.UploadKey | server.js:396 | the upload key starts with the storage prefix and ends in `.json` |
| S3Storage.IdFromUploadKey | server.js:373-376 | a template uploaded under `<prefix><id>.json` is listed under `id` again |
| S3Storage.SetParam | server.js:273 | `searchParams.set` stores the pair, keeps every pair with another name, and appends a new name |
| S3Storage.FillSearchParams | server.js:272-274 | the loop builds the query of the present parameters |
| S3Storage.QueryOfObject | server.js:272-274 | for an object the query is exactly its present properties, in order, each written as text |
| CanonicalRequest.BaseHeaders | server.js:225-231 | the base headers have distinct names, and the security token is present exactly when a session token is |
| CanonicalRequest.CanonicalEntries | server.js:233-238 | the entries are the canonicalised merged headers, each exactly once |
| CanonicalRequest.CanonicalEntriesShape | server.js:233-238 | entries are sorted by name, names are lower case, values have no surrounding whitespace, one entry per merged header |
| CanonicalRequest.CanonicalEntriesStable | server.js:238 | headers with equal lower-cased names keep their merged order |
| CanonicalRequest.RequestEntries | server.js:225-236 | `host`, `x-amz-date` and `x-amz-content-sha256` are always signed, and `x-amz-security-token` whenever there is a session token |
| CanonicalRequest.SignedHeadersSplit | server.js:240 | the signed-header list `CanonicalRequest.SignedHeaders` splits back into exactly the sorted header names |
| CanonicalRequest.CanonicalQuerySplit | server.js:219-222 | the canonical query `CanonicalRequest.CanonicalQuery` splits back into the `k=v` pairs sorted by name |
| CanonicalRequest.CanonicalHeadersJoin | server.js:239 | the header block `CanonicalRequest.CanonicalHeaders` is the `name:value` lines joined by newlines with a final newline |
| CanonicalRequest.BuildCanonicalRequestLines | server.js:242-249 | the lines of the canonical request `CanonicalRequest.BuildCanonicalRequest` are the method, the path, the query, one line per header in name order, an empty line, the signed headers and the payload hash |
| AwsCredentials.Resolve | server.js:188-209 | a served credential is cached; a failure keeps the cache as it was |
| AwsCredentials.CredentialCache.Get | server.js:188-209 | one call's outcome and the new cache are those of `Resolve` on the old cache |
| AwsCredentials.IsExpired | server.js:143-148 | `isCredentialExpired`: a credential without an expiration, or with one that does not read as a date, never counts as expired |
| AwsCredentials.ExpiryIsMonotone | server.js:143-148 | once expired, a credential stays expired |
| AwsCredentials.ExpiredWithinMargin | server.js:143-148 | a credential with an expiry counts as expired exactly from two minutes before it |
| AwsCredentials.FreshCacheIsServed | server.js:189-191 | a fresh cached credential is served, whatever the environment and STS would give |
| AwsCredentials.StaticCredentialsStay | server.js:188-209 | on a miss, static credentials give exactly the environment's access key, secret key and session token with no expiry; once cached they are served at every later time even if the environment changes |
| AwsCredentials.WebIdentityOnMiss | server.js:202-206 | on a miss without static credentials, the STS credential is served and cached exactly as fetched |
| AwsCredentials.EnvironmentBeforeWebIdentity | server.js:197-206 | on a cache miss the environment's credentials win over web identity |
| AwsCredentials.FailsExactly | server.js:188-209 | the call fails exactly on a cache miss with no static credentials and no web-identity credential |
| AwsCredentials.TwoCalls | server.js:188-209 | after an STS credential is cached, a second call is served from the cache while it is fresh |
| Slug.SlugifyNameShape | server.js:324-332 | the result is the fallback, or at most 80 characters from `[a-z0-9가-힣-]`, not starting with `-` and without `--` |
| Slug.SlugifyName | server.js:324-332 | the result is never empty |
| Slug.FallbackSlug | server.js:331 | the fallback starts with `template-` |
| Slug.Slugify | src/utils/slugify.ts:1-8 | the result is never empty |
| Slug.SlugifyAgreesWithServer | src/utils/slugify.ts:1-8 | the client's `slugify` equals the server's `slugifyName` for every input and clock reading |
| Slug.SlugIsFixedPoint | src/utils/slugify.ts:2-7 | an input that already is a slug comes back unchanged from both functions |
| Slug.TrailingHyphenSurvivesCut | server.js:325-329 | 79 slug characters, a space and one more give the 79 characters and `-`, which is not a slug |
| Slug.FallbackIsSlug | server.js:331 | for a clock reading of at most 71 digits the fallback is a slug |
| Slug.SlugifyNameStable | server.js:324-332 | slugifying a result again changes it only when the cut left a trailing hyphen |
| TemplatePayload.FirstFalsy | server.js:340-345 | the index of the first falsy required field, every earlier one being truthy |
| TemplatePayload.NormalizedTags | server.js:346-348 | tags are non-empty trimmed texts; anything but an array gives none |
| TemplatePayload.TagsAreTrimmedEntries | server.js:346-348 | the tags are exactly the non-empty trimmed renderings of the entries, in array order |
| TemplatePayload.NormalizedCredentials | server.js:355 | missing (`undefined` or `null`) credentials give `[]`; an array keeps only truthy entries, as a subsequence in order; anything else throws |
| TemplatePayload.CredentialsKeptExactly | server.js:355 | an entry is kept exactly when it is in the array and truthy |
| TemplatePayload.NormalizedMinutes | server.js:356-358 | falsy minutes become `undefined`; a non-zero number is kept |
| TemplatePayload.Normalize | server.js:334-360 | an empty or non-object payload is refused; an accepted one is an object whose required fields are truthy |
| TemplatePayload.MissingFieldIsFirstFalsy | server.js:340-345 | the refusal names a field exactly when it is the first falsy one of `name`, `description`, `difficulty`, `nodes`, `connections` |
| TemplatePayload.TypeErrorExactly | server.js:350-359 | with the required fields present, the only refusal is the `TypeError` of a non-string name to slugify or of non-array credentials |
| TemplatePayload.NormalizedFields | server.js:350-359 | the accepted payload's `id`, `tags`, `heroColor`, `credentials` and minutes follow the defaults; every other property reads as before; the original properties keep their order in front |
| TemplatePayload.NormalizeAccepts | server.js:334-360 | a payload passing every check is the five normalised properties spread over it |
| TemplatePayload.TagsStable | server.js:346-348 | normalised tags come back unchanged |
| TemplatePayload.CredentialsStable | server.js:355 | credentials that are an array of truthy entries come back unchanged |
| TemplatePayload.NormalizeIdempotent | server.js:334-360 | normalising a normalised payload changes nothing when the minutes did not come out as 0 |
| TemplatePayload.ZeroMinutesNotIdempotent | server.js:356-358 | minutes that convert to 0 make the second normalisation differ from the first |
| Templates.Overlay | src/App.tsx:105 | `{ ...item, ...full }`: the required fields come from `full`; each optional field (nodes, connections, preview, settings, diagram image and caption, credentials, minutes) is `full`'s when `full` has it and `item`'s otherwise |
| Templates.OverlayIdempotent | src/App.tsx:105 | spreading the same template twice gives what spreading it once gave |
| Templates.OverlaySelf | src/App.tsx:105 | a template spread over itself is itself; a loaded `full` gives a loaded result |
| N8nClient.NormalizeHost | src/utils/n8nClient.ts:15-17 | exactly one trailing `/` is removed when present; otherwise the host is unchanged |
| N8nClient.WorkflowsUrl | src/utils/n8nClient.ts:40 | the URL is the normalised host followed by `/rest/workflows` |
| N8nClient.TrailingSlashIrrelevant | src/utils/n8nClient.ts:15-40 | a host with or without its trailing slash gives the same URL |
| N8nClient.OnlyOneSlashRemoved | src/utils/n8nClient.ts:15-17 | of two trailing slashes one is kept |
| N8nClient.BuildHeaders | src/utils/n8nClient.ts:19-37 | token mode without a token and Basic mode without both user and password throw. Otherwise the headers are the JSON content type plus `Bearer <token>` or `Basic <base64(user:pass)>`, or nothing more in cookie mode |
| N8nClient.FetchCredentials | src/utils/n8nClient.ts:52 | the session cookie is included exactly in cookie mode |
| N8nClient.ImportBody | src/utils/n8nClient.ts:45-51 | the body has `name`, `active: false`, and the template's nodes, connections and tags |
| Gallery.AvailableTags | src/App.tsx:64-68 | the tags are exactly the union of the templates' tags, strictly increasing (sorted and duplicate-free) |
| Gallery.Filtered | src/App.tsx:70-78 | every kept template matches the query and the selected tag |
| Gallery.FilteredExactly | src/App.tsx:70-78 | a template is kept exactly when it is in the list and `Gallery.Matches` holds, that is when its lower-cased name or description contains the lower-cased query and a selected tag is among its tags; the order is kept |
| Gallery.EmptyQueryShowsAll | src/App.tsx:71-76 | an empty query without a selected tag shows every template |
| Gallery.Selected | src/App.tsx:80-83 | every selected template has a selected id |
| Gallery.SelectedExactly | src/App.tsx:80-83 | the selection is exactly the templates with a selected id, in list order |
| Gallery.Toggle | src/App.tsx:85-95 | the given id's membership flips; every other id is unchanged |
| Gallery.ToggleSelection | src/App.tsx:85-95 | copying the set and deleting or adding the id gives `Toggle` |
| Gallery.ToggleTwice | src/App.tsx:85-95 | toggling twice restores the selection |
| Gallery.AfterUpload | src/App.tsx:178 | the saved template comes first and no other entry has its id |
| Gallery.AfterUploadShape | src/App.tsx:178 | after the saved template come exactly the previous entries with another id, in their order |
| Gallery.AfterUploadKeepsIdsDistinct | src/App.tsx:178 | ids that were distinct stay distinct |
| Gallery.MergeHydrated | src/App.tsx:105 | the list keeps its length and order; only entries with `full`'s id change, to `{ ...item, ...full }` |
| Gallery.MergeHydratedIdempotent | src/App.tsx:105 | merging the same template twice gives what merging it once gave |
| Gallery.MergeHydratedIds | src/App.tsx:105 | the ids are unchanged, and the entries with `full`'s id are loaded when `full` is |
| Gallery.EnsureHydrated | src/App.tsx:97-114 | a loaded template is returned with the list unchanged; a failed load throws with the list unchanged; otherwise the fetched template is returned and merged into the list |
| Gallery.HydratedReturnsEarly | src/App.tsx:98 | a loaded template (`Templates.IsHydrated`: truthy nodes and connections) is returned whatever loading it again would give |
| UploadForm.ParseCommaList | src/components/TemplateUploadModal.tsx:57-73 | each entry is non-empty, trimmed and free of commas |
| UploadForm.CommaListExactly | src/components/TemplateUploadModal.tsx:57-73 | `UploadForm.ParsedTags` and `UploadForm.ParsedCredentials` are this list for the tags and credentials fields; the list holds exactly the non-empty trimmed pieces between commas, in input order |
| UploadForm.CommaListRoundTrip | src/components/TemplateUploadModal.tsx:57-73 | a list of clean entries joined with commas parses back to itself |
| UploadForm.ParseWorkflowJson | src/components/TemplateUploadModal.tsx:90-100 | an empty field parses as `{}`; a parse failure and a `null` document are reported as such; a document is accepted exactly as parsed when it is not `null` and has truthy `nodes` and `connections` |
| UploadForm.UniqueId | src/components/TemplateUploadModal.tsx:117-118 | the id is the slug of the name when no template has it, else the slug, `-` and the clock reading |
| UploadForm.HandleSubmit | src/components/TemplateUploadModal.tsx:102-138 | submit stops exactly when the trimmed name or description is empty, and else exactly when the JSON is refused; a built template is loaded |
| UploadForm.SubmittedTemplate | src/components/TemplateUploadModal.tsx:120-135 | the template has the trimmed name and description, the form's difficulty, colour and diagram image, the JSON's preview, nodes and connections, the JSON's settings when truthy and `{}` otherwise, the parsed tags and credentials, no caption for an empty one and no minutes for 0 |
| UploadForm.TitleCheckedFirst | src/components/TemplateUploadModal.tsx:104-107 | a missing title is reported whatever the JSON is |
| UploadForm.SuffixedIdMayCollide | src/components/TemplateUploadModal.tsx:117-118 | when the suffixed id is also taken, it is used anyway |

## Left out

- Network and file I/O:
  - the Express routes' status codes and responses;
  - every `fetch` to S3, STS and n8n;
  - reading template files;
  - the STS XML scraping.
  The file reader is a function parameter of the import route, and the STS result is an input of the credential cache.
- Listing keys from S3 and the `Promise.all` fan-out of the list route (server.js:362-386). Only the `.json` filter and the key-to-id rule are modelled.
- The `req.body?.template \|\| req.body` choice of the upload route (server.js:395). The normaliser takes the chosen value.
- SHA-256, HMAC, the signing-key chain, the string to sign, the `Authorization` header and the returned header object of `signS3Request` (server.js:251-266). The payload hash and the date enter as text.
- The date formatting of `signS3Request` (server.js:214-216).
- The full WHATWG URL algorithm. Only scheme, authority, pathname, hostname, the pathname setter and serialisation are modelled. Host lower-casing, percent-encoding of the path, IPv6 hosts and ports are not. Three further differences reach the endpoint builder and the storage path parser:
  - A special scheme written without `//` (`https:host`) is rejected, so the model's endpoint builder throws. WHATWG parses it as `https://host/`.
  - A scheme is not lower-cased, so `HTTPS://h` is not treated as special.
  - The pathname setter leaves a URL without `//` unchanged even when its path starts with `/` (`c:/rest/`). WHATWG sets such a path.
- S3Storage.ParseS3Path: the URL form takes the first label of whatever host the simplified parser yields. For a URL whose host is empty, the bucket is `""`, and the model returns it as the code would.
- `encodeURIComponent`, base64 and `JSON.parse` are function parameters. Their own properties, such as the exception `btoa` raises for characters above U+00FF, are not modelled.
- `toLowerCase` is modelled for ASCII only. Full Unicode case mapping is not modelled, so the search for non-ASCII upper-case text can differ, and so can slugs: JavaScript lowers U+212A KELVIN SIGN to `k` and U+0130 to `i` followed by U+0307, where the model keeps those characters and so drops them from the slug.
- `localeCompare` and the default sort are modelled as code-point order.
- Numbers are integers. Floating point, `NaN` and `Number()` on strings are left to the `number` parameter of the normaliser.
- AwsCredentials.Resolve: an expiration that `new Date` cannot read is never treated as expired, as in the code, because comparisons with `NaN` are false.
- AwsCredentials: `fetchWebIdentityCredentials` itself (server.js:150-186) is not modelled. Its result is an input.
- `importSelectedTemplates` (src/App.tsx:189-230) is not modelled: it performs one network request per template.
- React state updates, rendering, `FileReader`, `localStorage` and the clipboard are not modelled. The gallery functions take the previous state and return the next.
- `importWorkflow`'s `fetch` and error handling (src/utils/n8nClient.ts:39-63) are not modelled. Only its URL, headers, body and credentials option are.
- Templates.WorkflowTemplate: the typed client record assumes its required fields are present. The untyped JSON the server handles is `JsValues.Value`.
- UploadForm.HandleSubmit: the minutes field is an integer. `Number(..)` of text typed into it, and `NaN`, are not modelled.
