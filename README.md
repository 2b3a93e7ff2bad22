# Marketing backend: draft generation, post import and dashboard aggregates

A Dafny model of the deterministic logic in four controllers of the marketing
backend:

- **Draft generation** (`PostGeneratorController::generate`). The request is validated and text-only Instagram posts are refused. A text request is always issued; an image request is issued only for image posts. The replies are merged into `suggested_content` and `temp_image_url`. Each field is taken from an ordered list of JSON locations. A failed or non-ok reply degrades to a placeholder text or a null image; it does not fail the call.
- **Post creation and update** (`Api\PostController::store`, `::update`). `store` imports a generator image: a Content-Type is mapped to a file extension, and `image_path` is filled only when it was empty and the download succeeded. `update` overwrites only the validated keys.
- **Campaign metrics** (`Api\CourseController::campaigns`). For each post only its latest metric counts. Reach, interactions and engagement are summed with null read as 0. The CTR is guarded against zero reach.
- **Student dashboard** (`Api\AlumnoController::stats`, `::resumen`). Each enrollment becomes a display row with status and course derivation and fixed defaults. Rows without a user are dropped. Enrollments are counted per status.

Modules: `Wrappers` (Option), `Json` (decoded JSON bodies, Laravel's
`data_get`, PHP's canonical integer keys and string cast), `PostGenerator`,
`Posts`, `CourseCampaigns`, `Alumnos`, and `PhpStrings` (PHP's `trim`
set and the blank test Laravel's validator and `filled` use).

How the model treats the system's boundaries:
- Each upstream call is a parameter. `Generate` receives `pool`, a function that answers each request it issues. `Generate` also returns the list of requests it issued.
- An upstream result is either the exception the pool caught or a reply: a status and a decoded JSON body. A body that is not JSON decodes to null. `ok()` means status 200 exactly.
- Casting an array to a string in PHP raises a warning, and the framework turns that warning into an exception. The controller catches it and answers 500. The model has exactly one such case: a saved image whose `id` is itself an array or object. It is the only 500 path.
- The configured service base URL is a parameter. So is the framework's URL syntax check (`isUrl`).
- The download in `store` is an input value (exception, or status plus Content-Type). The unique file stem is an input string.
- Database query results are given sequences: campaigns, posts with their metrics, enrollments, profiles, certificates and groups.

Where the code and its feature test disagree, the model follows the code.
tests/Feature/PostGeneratorTest.php:32-35 expects `default_suggestion`,
`variants`, `image_preview` and `image_generated` in the response. The
`generate` action returns only `suggested_content` and `temp_image_url`, so
that is what `Merge` produces.

## Model

| member | source | states |
|---|---|---|
| `PhpStrings.NotBlank` | app/Http/Controllers/PostGeneratorController.php:18 | `trim(s) !== ''`: a non-blank string is non-empty, and one starting with a non-trimmed character is non-blank |
| `Json.Child` | app/Http/Controllers/PostGeneratorController.php:81 | one `data_get` step reads an object member; any scalar gives null |
| `Json.DataGet` | app/Http/Controllers/PostGeneratorController.php:70 | an empty path gives the value itself; a step into a scalar, or into an object lacking the key, gives null |
| `Json.FirstPresent` | app/Http/Controllers/PostGeneratorController.php:70 | the `??` chain yields the fallback or the non-null value at one of the paths |
| `Json.DecimalParses` | app/Http/Controllers/PostGeneratorController.php:81 | the canonical decimal spelling of n is the list key n, so segment "0" reaches the first list element |
| `Json.ParsedIsCanonical` | app/Http/Controllers/PostGeneratorController.php:81 | a path segment that selects a list index is exactly the canonical spelling of that index |
| `Json.ToPhpString` | app/Http/Controllers/PostGeneratorController.php:83 | concatenating a value raises exactly for arrays; a string is kept unchanged |
| `Json.FirstPresentIsFirst` | app/Http/Controllers/PostGeneratorController.php:70 | a `??` chain of lookups yields the value at the first path that is not null |
| `Json.FirstPresentFallback` | app/Http/Controllers/PostGeneratorController.php:85 | a `??` chain yields its fallback when every path is null |
| `PostGenerator.TrimTrailingSlashes` | app/Http/Controllers/PostGeneratorController.php:39 | `rtrim(base,'/')` is a prefix of base, does not end in '/', and only slashes were removed |
| `PostGenerator.Validates` | app/Http/Controllers/PostGeneratorController.php:17-22 | a valid request has prompt, platform and content type; the prompt is not blank after trimming (`required`) and platform and type come from disjoint lists; the URL check applies only to a non-blank link |
| `PostGenerator.BlankPromptRefused` | app/Http/Controllers/PostGeneratorController.php:18 | a prompt made only of trimmed characters fails validation whatever its length |
| `PostGenerator.BlankLinkUnchecked` | app/Http/Controllers/PostGeneratorController.php:21 | a blank link_url validates exactly as an absent one: the `url` rule is not run on it |
| `PostGenerator.Requests` | app/Http/Controllers/PostGeneratorController.php:38-58 | the text request is always issued, first, to <rtrim(base)>/api/v1/marketing/generation/<platform> with prompt, content type and link; the image request (sampleCount 1), to .../generation/image, is issued iff content_type is image |
| `PostGenerator.SavedId` | app/Http/Controllers/PostGeneratorController.php:81-82 | an id is found iff the saved image is an array whose `id` is non-null, and then it is that `id` |
| `PostGenerator.TempImageUrl` | app/Http/Controllers/PostGeneratorController.php:74-88 | a failed or non-ok image reply gives null; building the URL raises exactly when the saved id is an array |
| `PostGenerator.Generate` | app/Http/Controllers/PostGeneratorController.php:15-102 | invalid request gives 422 with nothing sent (status 422 iff nothing is sent); Instagram plus text gives the refusal 422 with nothing sent; every valid, allowed request sends exactly the planned requests and answers the merge of their outcomes over the trimmed base; a draft or a 500 happens only for such requests |
| `PostGenerator.SuggestedContentOrder` | app/Http/Controllers/PostGeneratorController.php:61-72 | `suggested_content` tries payload.generated_text, then payload.candidates.0.content.parts.0.text, then text, then generated_text; it is the placeholder if all are null or the reply threw or was not ok |
| `PostGenerator.TempImageUrlOrder` | app/Http/Controllers/PostGeneratorController.php:81-86 | a saved id gives rtrim(base)/api/v1/marketing/generation/image/<id>; otherwise image_url, then url, then null |
| `PostGenerator.SuggestedContent` | app/Http/Controllers/PostGeneratorController.php:61-72 | a failed or non-ok text reply gives the placeholder; the text is never null |
| `PostGenerator.Merge` | app/Http/Controllers/PostGeneratorController.php:61-100 | the merge is a draft or the one array-id 500; the draft text is the text reply's content; with no image requested the image URL is null |
| `PostGenerator.MergeDegrades` | app/Http/Controllers/PostGeneratorController.php:61-100 | the merge always succeeds except for the array-id 500; the image URL is null when no image was requested or the image call failed; a failed text call gives the placeholder |
| `PostGenerator.ScenarioSavedImage` | app/Http/Controllers/PostGeneratorController.php:81-83 | text reply `{generated_text:"Hello"}` with saved image "img1" gives "Hello" and the image route for img1 |
| `PostGenerator.ScenarioImageTimeout` | app/Http/Controllers/PostGeneratorController.php:74-79 | an image call that threw, beside a good text reply, gives the generated text and a null image URL |
| `Posts.Extension` | app/Http/Controllers/Api/PostController.php:45-47 | the extension is always png, jpg or gif |
| `Posts.IsEmpty` | app/Http/Controllers/Api/PostController.php:38 | `empty()` is false for strings of two or more characters and for non-zero numbers |
| `Posts.Filled` | app/Http/Controllers/Api/PostController.php:38 | a filled input is a present non-empty string, and one starting with a non-blank character is filled |
| `Posts.Contains` | app/Http/Controllers/Api/PostController.php:46-47 | an occurrence never exceeds the string, and a prefix always occurs |
| `Posts.ContainsIffOccurs` | app/Http/Controllers/Api/PostController.php:46-47 | `str_contains` holds iff the part appears at some position of the string |
| `Posts.ExtensionRules` | app/Http/Controllers/Api/PostController.php:45-47 | gif iff the type contains "gif"; jpg iff it contains "jpeg" or "jpg" but not "gif"; png otherwise |
| `Posts.DefaultMimeIsPng` | app/Http/Controllers/Api/PostController.php:43-47 | a missing Content-Type (taken as image/png) and an empty one both give png |
| `Posts.CommonMimes` | app/Http/Controllers/Api/PostController.php:45-47 | image/jpeg gives jpg and image/gif gives gif |
| `Posts.ImportImage` | app/Http/Controllers/Api/PostController.php:36-57 | download requested iff image_path is empty and image_url is filled; only an ok reply sets image_path to posts/<stem>.<ext>, where the successive ifs give the priority extension; all else leaves the attributes untouched |
| `Posts.ImportedPathShape` | app/Http/Controllers/Api/PostController.php:49-51 | the stored path starts with posts/ and ends in .png, .jpg or .gif |
| `Posts.Store` | app/Http/Controllers/Api/PostController.php:20-62 | always 201 with a new post; when image_path is empty, image_url is filled and the download answers 200, the post gets image_path posts/<stem>.<ext> of the reply's type (png if none) and the other validated attributes; in every other case the validated attributes are stored unchanged |
| `Posts.Post.Create` | app/Http/Controllers/Api/PostController.php:59 | the created post holds the given attributes |
| `Posts.Overwrite` | app/Http/Controllers/Api/PostController.php:75-87 | keys validated by update take the request's value; every other key keeps its old value |
| `Posts.Post.Update` | app/Http/Controllers/Api/PostController.php:71-90 | the post's new attributes are the overwrite of the old ones |
| `Posts.UpdateKeepsOwnership` | app/Http/Controllers/Api/PostController.php:75-85 | update never changes or adds campaign_id or created_by |
| `Posts.OverwriteIdempotent` | app/Http/Controllers/Api/PostController.php:87 | applying the same update twice equals applying it once |
| `CourseCampaigns.Latest` | app/Http/Controllers/Api/CourseController.php:83 | there is a latest metric iff the post has metrics |
| `CourseCampaigns.LatestIsFirstNewest` | app/Http/Controllers/Api/CourseController.php:83 | the selected metric has the greatest created_at, and no earlier-listed metric ties with it |
| `CourseCampaigns.FirstNewestIsLatest` | app/Http/Controllers/Api/CourseController.php:83 | the first metric with the greatest created_at is the one selected |
| `CourseCampaigns.Ctr` | app/Http/Controllers/Api/CourseController.php:98 | with positive reach, ctr times reach equals engagement times 100; otherwise ctr is 0, with no division |
| `CourseCampaigns.Total` | app/Http/Controllers/Api/CourseController.php:82-97 | the sum of each post's latest-metric part is non-negative when every part is, and 0 when every part is 0 |
| `CourseCampaigns.Summarize` | app/Http/Controllers/Api/CourseController.php:100-106 | total_posts is the post count and total_pre_registrations is 0 |
| `CourseCampaigns.Aggregate` | app/Http/Controllers/Api/CourseController.php:79-106 | the two accumulation loops compute the sums of latest reach, interactions and engagement, and the guarded CTR |
| `CourseCampaigns.Report` | app/Http/Controllers/Api/CourseController.php:77-133 | one entry per campaign, in order, each with its own metrics; total_versions and total_campaigns are the collection sizes |
| `CourseCampaigns.TotalReachNonNegative` | app/Http/Controllers/Api/CourseController.php:85 | total_reach is at least 0 when no metric records a negative reach |
| `CourseCampaigns.InteractionsSplit` | app/Http/Controllers/Api/CourseController.php:86 | total_interactions equals summed likes plus summed comments plus summed shares, null read as 0 |
| `CourseCampaigns.OnlyLatestCounts` | app/Http/Controllers/Api/CourseController.php:82-96 | posts with the same latest metrics give the same totals, whatever their older metrics |
| `CourseCampaigns.PostWithoutMetrics` | app/Http/Controllers/Api/CourseController.php:84-87 | a post without metrics adds nothing to the sums or CTR but is counted in total_posts |
| `Alumnos.ProfileOf` | app/Http/Controllers/Api/AlumnoController.php:42 | the profile found belongs to the user; none is found only when no profile does |
| `Alumnos.WithStatus` | app/Http/Controllers/Api/AlumnoController.php:22-26 | each kept enrollment has the status, and every enrollment with the status is kept as often as it occurs (multiset equality on that status) |
| `Alumnos.Unset` | app/Http/Controllers/Api/AlumnoController.php:48 | keeps exactly the enrollments with no status, each as often as it occurs |
| `Alumnos.Count` | app/Http/Controllers/Api/AlumnoController.php:22-26 | a status count is at most the enrollment count, 0 iff no enrollment has the status, and all iff every one has it |
| `Alumnos.NoneKept` | app/Http/Controllers/Api/AlumnoController.php:22-26 | the filter is empty iff no enrollment has the status |
| `Alumnos.AllKept` | app/Http/Controllers/Api/AlumnoController.php:22-26 | the filter keeps everything iff every enrollment has the status |
| `Alumnos.Partition` | app/Http/Controllers/Api/AlumnoController.php:22-32 | the five status counts plus the unset enrollments make up all enrollments |
| `Alumnos.StatsOf` | app/Http/Controllers/Api/AlumnoController.php:22-32 | each per-status count is that status's count, total_matriculados is all enrollments, egresados the certificates, and the five counts plus the unset ones sum to the total |
| `Alumnos.GroupsWithStatus` | app/Http/Controllers/Api/AlumnoController.php:106-109 | a group count is at most the number of groups, and 0 iff no group has that status |
| `Alumnos.ResumenOf` | app/Http/Controllers/Api/AlumnoController.php:99-123 | matriculados, inactivos, pendientes and completados are the active, dropped, pending and completed counts; the group counts are per group status; total_estudiantes = active + pending, never more than all enrollments |
| `Alumnos.EstadoRules` | app/Http/Controllers/Api/AlumnoController.php:48-51 | estado is egresado iff certified and completed; an unset status reads as pending; any other status is kept |
| `Alumnos.Estado` | app/Http/Controllers/Api/AlumnoController.php:48-51 | egresado iff certified and completed; pending when unset; always one of the five status values or egresado |
| `Alumnos.CursoOf` | app/Http/Controllers/Api/AlumnoController.php:54-57 | a course name other than the default comes only from a full group, version and course chain |
| `Alumnos.CursoRule` | app/Http/Controllers/Api/AlumnoController.php:54-57 | curso is the course name iff group, course version and course are all present, else 'Sin curso asignado' |
| `Alumnos.RowDefaults` | app/Http/Controllers/Api/AlumnoController.php:38-72 | no row without a user; every field is the user's or profile's value when present and its default (No registrado, '', [], '', name) when missing, curso is the course-chain rule, including a profile whose interests or learning_goal is null |
| `Alumnos.Row` | app/Http/Controllers/Api/AlumnoController.php:37-73 | a row exists iff the enrollment has a user, and carries that user's id and email and the enrollment's group id |
| `Alumnos.Listing` | app/Http/Controllers/Api/AlumnoController.php:35-76 | one row per user-bearing enrollment, and every row is the row of some enrollment |
| `Alumnos.ListingReindexed` | app/Http/Controllers/Api/AlumnoController.php:35-76 | the row of the k-th enrollment sits at the count of user-bearing enrollments before it, so rows are renumbered from 0 in order |
| `Alumnos.UnsetListedAsPending` | app/Http/Controllers/Api/AlumnoController.php:22-48 | an enrollment with no status is listed as pending, and adding it to any enrollments leaves pendientes unchanged |

## Left out

- Concurrency of `Http::pool`: the two upstream results are inputs, so nothing depends on their timing.
- Logging calls (warnings on failed generation and download, and the error log before the 500).
- Bodies of validation-error responses. Validation rules outside `generate`: types, maximum lengths and `exists:` checks in `store`/`update`. The model takes the validated attributes as given.
- The request middleware that trims strings and turns empty strings into null.
- JSON floating-point numbers: JSON numbers are integers.
- Downloaded bytes and `Storage::put`. `uniqid` is the `stem` input.
- Eloquent's own columns (id, created_at, updated_at) and its mass-assignment filter. Every validated key is assumed fillable.
- `Ctr`: the value is exact; the floating-point division and `round(..., 2)` are left out. Only the zero-reach guard and the ratio are modelled.
- The `campaigns` lookups: `findOrFail` (404), the `whereIn` on version ids and the eager loads. Versions and campaigns are given sequences.
- The pass-through fields of each campaign entry and of the course block (objective, dates, proposal, course version, description): copied unchanged by the source.
- `stats` and `resumen` counts come from separate queries of the same tables; the model computes them from one given sequence.
- The enum behind `academic_status` lives in the external `IncadevUns\CoreDomain` package, which is not part of this model. Its cases are taken from the five values the controller queries. A stored value outside them is not modelled.
- A null course name is not modelled.
- Date formatting by `toISOString`: dates are given already formatted.
- `index`, `show`, `destroy`, `byCampaign` and `metrics` of the post controller, and the course `index`, `show` and `versions` actions: plain reads and deletes.
- The campaign, proposal, course-version and metric controllers: plain CRUD. The metric controller also relies on scopes and an engagement method that are not part of this model.
- Publishing to the social platform, duplicate platform-id handling, the media cache and resolver, and draft cleanup are not part of this model: routes/api.php defines no route for them (only the resource routes of campaigns, proposals, posts and metrics, and the controllers above).
