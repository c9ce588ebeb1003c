# Forum editor and lesson detail view, modelled in Dafny

This project models the logic of two React components of an educational
platform's front end:

- **EditForum** (`src/components/editForum/EditForum.jsx`): the forum post
  editor. It loads a forum record and strips HTML tags from its title and
  description. It lets the user edit both fields and pick a replacement image.
  On submit it uploads the image first, then PUTs the whole record. Cancel asks
  for confirmation before leaving.
- **LessonDetail** (`src/components/lessonDetail/LessonDetail.jsx`): the lesson
  page. It shows "Loading..." until the lesson arrives. Then it renders every
  YouTube content item of every section as an embedded video, and a sidebar
  with one entry per section.

Files:

- `markup.dfy` (module `Markup`): the tag stripper. This is the global
  replacement of `/<\/?[^>]+(>|$)/` by `""`, written as a recursive function
  `Strip`. The lemmas cover the three things the scan can do at a `<`, what a
  stripped string looks like, idempotence, and the examples.
- `forum_editor.dfy` (module `ForumEditor`): the form record as a datatype, the
  pure record updates passed to `setForumData`, and a class `Editor` with the
  component state (`forumData`, `file`, `loading`, `previewImage`). The six
  handlers are methods on that class. The class also keeps three logs of what
  the component sends out: HTTP requests, notifications and navigations.
- `lesson_detail.dfy` (module `LessonDetail`): the lesson datatypes, the video
  projection and the sidebar as sequence functions, and the fetch-once-on-mount
  lifecycle as pure state transitions.
- `wrappers.dfy` (module `Wrappers`): `Option`, for JavaScript values that may
  be missing.

Every step that leaves the component is an input of the handler that performs
it:

- the GET, the upload and the PUT: the handler receives its outcome;
- the confirmation dialog: a boolean;
- `URL.createObjectURL`: the object URL string;
- the `v` query-parameter lookup: a function parameter `queryV`;
- `decodeURIComponent` and `encodeURIComponent`: function parameters.

How the stripper reads the regular expression: `[^>]+` also matches `/`, so
the optional `\/?` adds nothing. A match starts at a `<` exactly when a next
character exists and is not `>`. The greedy run then ends at the first later
`>`, which the match includes, or at the end of the text, where `$` matches.
Every other character is kept.

Behaviour of the code that is easy to misread, and that the model keeps:

- A stripped field is not always free of markup characters. A `<` survives
  when it is the last character or is followed directly by `>`, and every `>`
  outside a tag survives. `Markup.StripIsClean` states exactly what remains;
  `Markup.StripRemovesEveryAngle` shows that no `<` remains when every `<`
  opens a tag.
- The lesson is fetched once per mount. The effect has an empty dependency
  list, so a change of the route id issues no new request.
- Selecting "no file" stores no file but keeps the previous preview.
- The editor's load effect depends on the route id, so a new id re-runs the
  load (`ForumEditor.Editor.RouteChanged`). File and preview are not reset.
  When that load fails, the previous forum's record stays in the form, and a
  submit then PUTs it to the new id.

## Model

| member | source | states |
|---|---|---|
| `Markup.AfterClose` | src/components/editForum/EditForum.jsx:39 | the tail of a match after its `<`: the result is the suffix after the first `>`, which the match consumes; when there is no `>`, the match runs to the end and nothing remains |
| `Markup.OpensTag` | src/components/editForum/EditForum.jsx:39 | a match starts at a `<` followed by a character other than `>`, and then covers at least that `<` and one body character |
| `Markup.Strip` | src/components/editForum/EditForum.jsx:39-43 | stripping never makes the text longer |
| `Markup.StripKeepsChar` | src/components/editForum/EditForum.jsx:39 | a character other than `<` is kept, and the scan continues after it |
| `Markup.StripKeepsBareAngle` | src/components/editForum/EditForum.jsx:39 | a `<` that is last or directly followed by `>` starts no match and is kept |
| `Markup.AfterCloseSkips` | src/components/editForum/EditForum.jsx:39 | the greedy `[^>]+` passes over any text that holds no `>` |
| `Markup.StripDropsClosedTag` | src/components/editForum/EditForum.jsx:39 | `<` + nonempty body without `>` + `>` is deleted whole, and the scan resumes after it |
| `Markup.StripDropsUnclosedTag` | src/components/editForum/EditForum.jsx:39 | a `<` followed by a nonempty body with no `>` deletes everything up to the end (the `$` branch) |
| `Markup.StripIsClean` | src/components/editForum/EditForum.jsx:39-43 | after stripping, every remaining `<` is the last character or is immediately followed by `>` |
| `Markup.StripRemovesEveryAngle` | src/components/editForum/EditForum.jsx:39-43 | when every `<` of the text opens a tag (well-formed markup), the stripped text contains no `<` at all |
| `Markup.StripCleanIsIdentity` | src/components/editForum/EditForum.jsx:39 | a text in which no `<` starts a match is returned unchanged |
| `Markup.StripWithoutAngleIsIdentity` | src/components/editForum/EditForum.jsx:39 | a text with no `<` is returned unchanged |
| `Markup.StripIdempotent` | src/components/editForum/EditForum.jsx:39-43 | stripping twice equals stripping once |
| `Markup.StripKeepsPlainPrefix` | src/components/editForum/EditForum.jsx:39 | a leading run without `<` is kept verbatim before the stripped rest |
| `Markup.StripElement` | src/components/editForum/EditForum.jsx:38-43 | `<name>text</name>`, with text free of `<`, strips to the bare text |
| `Markup.StripExampleParagraph` | src/components/editForum/EditForum.jsx:39 | "<p>Calc</p>" strips to "Calc" |
| `Markup.StripExampleBold` | src/components/editForum/EditForum.jsx:40-43 | "<b>Intro</b>" strips to "Intro" |
| `Markup.StripExampleUnclosed` | src/components/editForum/EditForum.jsx:39 | "a<b" strips to "a": an unclosed tag swallows the rest |
| `Markup.StripExampleEmptyTag` | src/components/editForum/EditForum.jsx:39 | "<>" is left as it is |
| `ForumEditor.Loaded` | src/components/editForum/EditForum.jsx:36-49 | the stored record's title and description are stripped: clean, no longer than fetched, unchanged when they hold no `<`, free of `<` when every `<` in them opens a tag; image and every other field are the fetched ones |
| `ForumEditor.LoadedIdempotent` | src/components/editForum/EditForum.jsx:39-49 | loading an already loaded record stores it unchanged |
| `ForumEditor.LoadedExample` | src/components/editForum/EditForum.jsx:38-49 | the record {id 5, "<p>Calc</p>", "<b>Intro</b>", ""} loads as {id 5, "Calc", "Intro", ""} |
| `ForumEditor.WithTitle` | src/components/editForum/EditForum.jsx:70-73 | the title update sets the title and leaves description, image and all other fields unchanged |
| `ForumEditor.WithDescription` | src/components/editForum/EditForum.jsx:77-80 | the description update sets the description and leaves title, image and all other fields unchanged |
| `ForumEditor.Payload` | src/components/editForum/EditForum.jsx:140-143 | the PUT body is the form record with only its image replaced by the resolved url |
| `ForumEditor.Editor.constructor` | src/components/editForum/EditForum.jsx:9-16 | the initial state: record {title "", description "", image ""}, no file, not loading, empty preview, nothing sent |
| `ForumEditor.Editor.Load` | src/components/editForum/EditForum.jsx:19-63 | one GET for the id. On success the record becomes `Loaded(data)` and the preview becomes the fetched image only when that image is non-empty. On failure the record and preview are kept and an error is shown. Loading is false afterwards; file and navigation are untouched |
| `ForumEditor.Editor.RouteChanged` | src/components/editForum/EditForum.jsx:18-67 | the `[id]` dependency: the same id runs nothing and changes no state; a new route id re-runs the load for that id, with the same outcomes as `Load`; file and preview are not reset, and after a failed re-load the previous forum's record stays in the form |
| `ForumEditor.Editor.ChangeTitle` | src/components/editForum/EditForum.jsx:69-74 | only the record changes, by `WithTitle` |
| `ForumEditor.Editor.ChangeDescription` | src/components/editForum/EditForum.jsx:76-81 | only the record changes, by `WithDescription` |
| `ForumEditor.Editor.FileChange` | src/components/editForum/EditForum.jsx:83-89 | the selected value (possibly none) is always stored; the preview changes to the object URL only when a file is present, and is then non-empty |
| `ForumEditor.Editor.Submit` | src/components/editForum/EditForum.jsx:91-165 | with no file: one PUT of the record with its own image. With a file: the upload comes first; a failed upload shows an error and sends no PUT; a successful one is followed by a PUT with image = the uploaded url. The app navigates to "/getforum" exactly when the PUT is ok. Loading is false on every exit. Record, file and preview are not modified |
| `ForumEditor.Editor.Cancel` | src/components/editForum/EditForum.jsx:167-182 | navigates to "/getforum" only when confirmed; otherwise nothing changes |
| `ForumEditor.Mount` | src/components/editForum/EditForum.jsx:9-67 | a fresh editor after its mount load. A failed load leaves the default record and an empty preview; a successful one stores `Loaded(data)`, shows the fetched image and shows no notification |
| `LessonDetail.IncludesIff` | src/components/lessonDetail/LessonDetail.jsx:38 | `includes` holds exactly when the pattern occurs at some index (both directions) |
| `LessonDetail.Includes` | src/components/lessonDetail/LessonDetail.jsx:38 | a pattern at the head of the text is included, and an included pattern is never longer than the text |
| `LessonDetail.TitleOr` | src/components/lessonDetail/LessonDetail.jsx:51 | the "No Title" fallback: a present non-empty title is kept; a missing or empty one reads "No Title"; the result is never empty |
| `LessonDetail.IsYouTube` | src/components/lessonDetail/LessonDetail.jsx:37-38 | the `video_url && includes("youtube.com")` guard: a kept item has a url at least as long as "youtube.com" |
| `LessonDetail.Embed` | src/components/lessonDetail/LessonDetail.jsx:39-52 | the iframe source is "https://www.youtube.com/embed/" followed by the url's `v` parameter, or "null" when it is absent; the caption falls back to "No Title"; the key is the content id |
| `LessonDetail.ContentVideos` | src/components/lessonDetail/LessonDetail.jsx:35-55 | at most one video per item; every video has a non-empty caption and an embed-prefixed source |
| `LessonDetail.SectionVideos` | src/components/lessonDetail/LessonDetail.jsx:34-56 | the flatMap over sections yields at most one video per content item of the lesson, each with a non-empty caption and an embed-prefixed source |
| `LessonDetail.ContentVideosAppend` | src/components/lessonDetail/LessonDetail.jsx:34-56 | projecting a concatenation of items concatenates the projections (order is preserved) |
| `LessonDetail.SectionVideosFlatten` | src/components/lessonDetail/LessonDetail.jsx:34-56 | the flatMap over sections equals projecting all contents of all sections in order |
| `LessonDetail.ContentVideosCount` | src/components/lessonDetail/LessonDetail.jsx:35-54 | exactly one video per item whose url is non-empty and contains "youtube.com" |
| `LessonDetail.ContentVideosMember` | src/components/lessonDetail/LessonDetail.jsx:35-54 | a video is rendered exactly when it is the embedding of some such item (both directions) |
| `LessonDetail.NoYouTubeNoVideos` | src/components/lessonDetail/LessonDetail.jsx:37-38 | items without a YouTube url produce nothing |
| `LessonDetail.CountZero` | src/components/lessonDetail/LessonDetail.jsx:37-38 | with no YouTube item, the count of rendered items is zero |
| `LessonDetail.Sidebar` | src/components/lessonDetail/LessonDetail.jsx:60-66 | one entry per section, in section order, titled with the "No Title" fallback, whether or not the section has videos |
| `LessonDetail.Render` | src/components/lessonDetail/LessonDetail.jsx:22-66 | "Loading..." exactly when no lesson is stored; otherwise the lesson title, the projected videos and the sidebar |
| `LessonDetail.Mount` | src/components/lessonDetail/LessonDetail.jsx:6-20 | mount requests the lesson once, with the route id decoded then re-encoded, and nothing is stored yet |
| `LessonDetail.Step` | src/components/lessonDetail/LessonDetail.jsx:10-20 | a successful fetch stores the lesson; a failed one (only logged) and a route change leave the state as it was; no event issues a request |
| `LessonDetail.RunKeepsRequests` | src/components/lessonDetail/LessonDetail.jsx:10-20 | no sequence of events adds a request |
| `LessonDetail.FetchedOncePerMount` | src/components/lessonDetail/LessonDetail.jsx:7-20 | whatever happens after mount, exactly one request was made, with encode(decode(id)) |
| `LessonDetail.RunLesson` | src/components/lessonDetail/LessonDetail.jsx:12-17 | without a successful fetch the stored lesson is unchanged; after one, a lesson is stored |
| `LessonDetail.LoadingUntilSuccess` | src/components/lessonDetail/LessonDetail.jsx:8-24 | the view is "Loading..." exactly as long as no fetch has succeeded (both directions) |

## Left out

- HTTP, `response.json()`/`text()`, and the `localStorage` token reads. Each
  request is a log entry and each response an outcome parameter. The bearer
  header, the URLs' base and the multipart encoding are not modelled.
- The wording of notifications and `console.error` logging. Notifications are
  kept as tags only.
- `URL.createObjectURL`. Its result is a parameter of `FileChange`.
- WHATWG URL parsing, and the exception `new URL` throws on a relative
  `video_url`. The `v` lookup is a parameter, so a throwing render is not
  represented.
- `decodeURIComponent`/`encodeURIComponent`, including the exception on a
  malformed escape. Both are parameters.
- The `fetchLessonById` service is not part of this model.
- `src/services/fetchBlog.js`, a single fetch wrapper that is not part of this
  model.
- Async interleaving: a state update after unmount, or a second submit while
  the first is in flight (the button is only `disabled` while loading). Each
  handler runs to completion.
- JSX layout, CSS, the TextEditor component, and the fixed sidebar topic list.
- ForumEditor.Editor.Load: the moment when `loading` is true before the
  response arrives is not observable in the model. The same goes for Submit.
  Only the final `loading == false` is stated.
- ForumEditor.Forum: fields of the fetched record other than title,
  description and image are opaque strings. A missing or `null` image is modelled as ""; the source
  would instead drop the `image` key and PUT it without one.
  A title or description that is not a string makes `replace` throw, and is
  modelled as `FetchFailed`.
  An upload response without a `url` field is not modelled: the source would
  then PUT a body whose `image` is `undefined`, a key `JSON.stringify` drops.
- LessonDetail.Content: `video_url` and `video_title` are strings or missing.
  Other falsy JavaScript values are not distinguished.
