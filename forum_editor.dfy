/**
 * The forum editor: the form record, the selected image file, the loading
 * flag and the preview, and the six handlers that change them (load on mount,
 * title and description edits, file selection, submit, cancel).
 *
 * Every step that leaves the component (the GET, the image upload, the PUT,
 * the confirmation dialog, the browser's object URL for a file) is an input of
 * the handler that performs it: the handler receives its outcome.  What the
 * component sends out is recorded in three logs: the HTTP requests it issues,
 * the notifications it shows and the routes it navigates to.  Each handler
 * runs to completion before the next one starts.
 */
module ForumEditor {
  import opened Wrappers
  import opened Markup

  /**
   * The form record.  `others` holds the remaining fields of the fetched
   * record (its id, author, dates, ...), which the editor carries along and
   * sends back unchanged; a field's value is kept as its JSON text.
   */
  datatype Forum = Forum(title: string, description: string, image: string, others: map<string, string>)

  /** The record the form starts with, before any load. */
  const DefaultForum := Forum("", "", "", map[])

  /** The route the editor leaves to on a successful update or a confirmed cancel. */
  const ListRoute := "/getforum"

  /** A file picked in the file input; the browser's handle is opaque here. */
  datatype File = File(name: string, handle: nat)

  /** HTTP requests the editor issues. */
  datatype Request =
    | GetForum(id: string)              // GET forums/{id}/
    | UploadImage(file: File)           // POST upload/ with the file as multipart field "file"
    | PutForum(id: string, body: Forum) // PUT forums/{id}/ with the full record as JSON

  /** Notifications shown to the user. */
  datatype Notice = LoadFailed | UploadFailedNotice | UpdateFailed | Updated

  /**
   * Outcome of the GET and the parsing of its body.  `FetchFailed` covers a
   * rejected fetch, a non-ok status, a body that is not JSON, and a title or
   * description that is not a string (the `replace` call throws before the
   * record is stored).
   */
  datatype FetchOutcome = Fetched(data: Forum) | FetchFailed

  /** Outcome of the upload: the url the server returns, or a failure (rejected, non-ok, bad JSON). */
  datatype UploadOutcome = Uploaded(url: string) | UploadFailed

  /** The record stored after a successful load: the fetched record with its title and description stripped of tags. */
  function Loaded(data: Forum): (r: Forum)
    ensures Clean(r.title) && Clean(r.description)
    ensures |r.title| <= |data.title| && |r.description| <= |data.description|
    ensures '<' !in data.title ==> r.title == data.title
    ensures '<' !in data.description ==> r.description == data.description
    ensures WellTagged(data.title) ==> '<' !in r.title
    ensures WellTagged(data.description) ==> '<' !in r.description
    ensures r.image == data.image && r.others == data.others
  {
    StripRemovesEveryAngle(data.title);
    StripRemovesEveryAngle(data.description);
    StripIsClean(data.title);
    StripIsClean(data.description);
    StripWithoutAngleIsIdentity(data.title);
    StripWithoutAngleIsIdentity(data.description);
    data.(title := Strip(data.title), description := Strip(data.description))
  }

  /** Loading a record that was already loaded stores it unchanged. */
  lemma {:induction false} LoadedIdempotent(data: Forum)
    ensures Loaded(Loaded(data)) == Loaded(data)
  {
    StripIdempotent(data.title);
    StripIdempotent(data.description);
  }

  /** A record with a marked-up title and description loads as plain text. */
  lemma LoadedExample()
    ensures var data := Forum("<p>Calc</p>", "<b>Intro</b>", "", map["id" := "5"]);
            Loaded(data) == Forum("Calc", "Intro", "", map["id" := "5"])
  {
    StripExampleParagraph();
    StripExampleBold();
  }

  /** The title editor's update: the previous record with the new title, nothing else changed. */
  function WithTitle(prev: Forum, content: string): (r: Forum)
    ensures r.title == content
    ensures r.description == prev.description && r.image == prev.image && r.others == prev.others
  {
    prev.(title := content)
  }

  /** The description editor's update: the previous record with the new description, nothing else changed. */
  function WithDescription(prev: Forum, content: string): (r: Forum)
    ensures r.description == content
    ensures r.title == prev.title && r.image == prev.image && r.others == prev.others
  {
    prev.(description := content)
  }

  /** The body of the update request: the form record with its image set to the resolved image url. */
  function Payload(record: Forum, imageUrl: string): (r: Forum)
    ensures r.image == imageUrl
    ensures r.title == record.title && r.description == record.description && r.others == record.others
  {
    record.(image := imageUrl)
  }

  /** The editor component's state and its handlers. */
  class Editor {
    /** The forum id taken from the route; the load effect re-runs whenever it changes. */
    var id: string

    var forumData: Forum
    var file: Option<File>
    var loading: bool
    var previewImage: string

    /** Requests issued, notifications shown and routes navigated to, oldest first. */
    var requests: seq<Request>
    var notices: seq<Notice>
    var navigations: seq<string>

    /** The state of a freshly mounted editor, before its load completes. */
    constructor (id: string)
      ensures this.id == id
      ensures forumData == DefaultForum && file == None && !loading && previewImage == ""
      ensures requests == [] && notices == [] && navigations == []
    {
      this.id := id;
      forumData := DefaultForum;
      file := None;
      loading := false;
      previewImage := "";
      requests := [];
      notices := [];
      navigations := [];
    }

    /**
     * The load effect: GET the forum, store it with stripped title and
     * description and show its image when it has one; on failure notify and
     * keep the record.  Loading is cleared at the end either way.
     */
    method Load(outcome: FetchOutcome)
      modifies this
      ensures id == old(id)
      ensures requests == old(requests) + [GetForum(id)]
      ensures !loading
      ensures file == old(file) && navigations == old(navigations)
      ensures outcome.Fetched? ==>
        && forumData == Loaded(outcome.data)
        && previewImage == (if outcome.data.image != "" then outcome.data.image else old(previewImage))
        && notices == old(notices)
      ensures outcome.FetchFailed? ==>
        forumData == old(forumData) && previewImage == old(previewImage) && notices == old(notices) + [LoadFailed]
    {
      loading := true;
      requests := requests + [GetForum(id)];
      match outcome {
        case Fetched(data) =>
          forumData := Loaded(data);
          if data.image != "" {
            previewImage := data.image;
          }
        case FetchFailed =>
          notices := notices + [LoadFailed];
      }
      loading := false;
    }

    /**
     * The route's id is set, possibly to the id it already has.  A different
     * id re-runs the load effect for it (its dependency list is `[id]`); the
     * same id runs nothing.  File and preview are not reset, and when the new
     * load fails the previous forum's record stays in the form, so a later
     * submit PUTs that record to the new id.
     */
    method RouteChanged(newId: string, outcome: FetchOutcome)
      modifies this
      ensures id == newId
      ensures newId == old(id) ==>
        && requests == old(requests) && forumData == old(forumData) && previewImage == old(previewImage)
        && notices == old(notices) && loading == old(loading)
      ensures newId != old(id) ==> requests == old(requests) + [GetForum(newId)] && !loading
      ensures file == old(file) && navigations == old(navigations)
      ensures newId != old(id) && outcome.Fetched? ==>
        && forumData == Loaded(outcome.data)
        && previewImage == (if outcome.data.image != "" then outcome.data.image else old(previewImage))
        && notices == old(notices)
      ensures newId != old(id) && outcome.FetchFailed? ==>
        forumData == old(forumData) && previewImage == old(previewImage) && notices == old(notices) + [LoadFailed]
    {
      if newId != id {
        id := newId;
        Load(outcome);
      }
    }

    /** The title editor changed its content. */
    method ChangeTitle(content: string)
      modifies this`forumData
      ensures forumData == WithTitle(old(forumData), content)
    {
      forumData := WithTitle(forumData, content);
    }

    /** The description editor changed its content. */
    method ChangeDescription(content: string)
      modifies this`forumData
      ensures forumData == WithDescription(old(forumData), content)
    {
      forumData := WithDescription(forumData, content);
    }

    /**
     * The file input changed: store whatever was selected (possibly nothing);
     * only an actual file replaces the preview, by `objectUrl`, the object
     * URL the browser creates for it (a `blob:` URL, never empty).
     */
    method FileChange(selected: Option<File>, objectUrl: string)
      requires selected.Some? ==> objectUrl != ""
      modifies this`file, this`previewImage
      ensures file == selected
      ensures selected.Some? ==> previewImage != ""
      ensures previewImage == if selected.Some? then objectUrl else old(previewImage)
    {
      file := selected;
      if selected.Some? {
        previewImage := objectUrl;
      }
    }

    /**
     * Submit: upload the stored file first, if there is one, and abort on an
     * upload failure; then PUT the record with the resolved image url and
     * leave for the list when the server answers ok.  `upload` is the
     * upload's outcome (not consulted when no file is stored) and `updateOk`
     * whether the PUT answered with an ok status.
     */
    method Submit(upload: UploadOutcome, updateOk: bool)
      modifies this`loading, this`requests, this`notices, this`navigations
      ensures !loading
      ensures old(file).None? ==>
        && requests == old(requests) + [PutForum(id, Payload(forumData, forumData.image))]
        && notices == old(notices) + [if updateOk then Updated else UpdateFailed]
        && navigations == old(navigations) + (if updateOk then [ListRoute] else [])
      ensures old(file).Some? && upload.UploadFailed? ==>
        && requests == old(requests) + [UploadImage(file.value)]
        && notices == old(notices) + [UploadFailedNotice]
        && navigations == old(navigations)
      ensures old(file).Some? && upload.Uploaded? ==>
        && requests == old(requests) + [UploadImage(file.value), PutForum(id, Payload(forumData, upload.url))]
        && notices == old(notices) + [if updateOk then Updated else UpdateFailed]
        && navigations == old(navigations) + (if updateOk then [ListRoute] else [])
    {
      loading := true;
      var imageUrl := forumData.image;
      if file.Some? {
        requests := requests + [UploadImage(file.value)];
        match upload {
          case UploadFailed =>
            notices := notices + [UploadFailedNotice];
            loading := false;
            return;
          case Uploaded(url) =>
            imageUrl := url;
        }
      }
      requests := requests + [PutForum(id, Payload(forumData, imageUrl))];
      if updateOk {
        notices := notices + [Updated];
        navigations := navigations + [ListRoute];
      } else {
        notices := notices + [UpdateFailed];
      }
      loading := false;
    }

    /** Cancel: leave for the list only when the confirmation dialog is confirmed. */
    method Cancel(confirmed: bool)
      modifies this`navigations
      ensures navigations == old(navigations) + (if confirmed then [ListRoute] else [])
    {
      if confirmed {
        navigations := navigations + [ListRoute];
      }
    }
  }

  /**
   * Mounting the editor: the component starts from its default state and its
   * load effect runs once for the route's id.
   */
  method Mount(id: string, outcome: FetchOutcome) returns (e: Editor)
    ensures fresh(e) && e.id == id && !e.loading && e.file == None
    ensures e.requests == [GetForum(id)] && e.navigations == []
    ensures outcome.Fetched? ==> e.forumData == Loaded(outcome.data) && e.previewImage == outcome.data.image && e.notices == []
    ensures outcome.FetchFailed? ==> e.forumData == DefaultForum && e.previewImage == "" && e.notices == [LoadFailed]
  {
    e := new Editor(id);
    e.Load(outcome);
  }
}
