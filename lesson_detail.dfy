/**
 * The lesson detail view: a loading guard, the list of embedded YouTube
 * videos projected from the lesson's sections and their contents, and a
 * sidebar with one entry per section.  Everything here is a pure function of
 * the fetched lesson.
 *
 * The lookup of the `v` query parameter of a video url (WHATWG URL parsing
 * and `searchParams.get`) is passed in as the function `queryV`; it answers
 * None where `get` returns null.
 */
module LessonDetail {
  import opened Wrappers

  /** A content item; a missing `video_url` or `video_title` is None. */
  datatype Content = Content(id: string, videoUrl: Option<string>, videoTitle: Option<string>)

  /** A section and its content items, in order; a missing title is None. */
  datatype Section = Section(id: string, title: Option<string>, contents: seq<Content>)

  datatype Lesson = Lesson(lessonTitle: string, sections: seq<Section>)

  /** One embedded video: its key (the content id), its iframe source and its caption. */
  datatype Video = Video(key: string, src: string, caption: string)

  /** What the component renders. */
  datatype View =
    | Loading
    | Page(heading: string, videos: seq<Video>, sidebar: seq<string>)

  const YouTubeHost := "youtube.com"
  const EmbedPrefix := "https://www.youtube.com/embed/"
  const NoTitle := "No Title"

  // ---------------------------------------------------------------------
  // Strings
  // ---------------------------------------------------------------------

  /** `p` occurs in `s` starting at index `i`. */
  predicate OccursAt(s: string, p: string, i: int)
  {
    0 <= i && i + |p| <= |s| && s[i..i + |p|] == p
  }

  /** String.prototype.includes: `p` occurs somewhere in `s` (the empty string occurs everywhere). */
  function Includes(s: string, p: string): (b: bool)
    ensures |p| <= |s| && s[..|p|] == p ==> b
    ensures b ==> |p| <= |s|
    decreases |s|
  {
    (|p| <= |s| && s[..|p|] == p) || (|s| > 0 && Includes(s[1..], p))
  }

  /** `Includes` holds exactly when `p` occurs at some index of `s`. */
  lemma {:induction false} IncludesIff(s: string, p: string)
    ensures Includes(s, p) <==> exists i :: OccursAt(s, p, i)
    decreases |s|
  {
    if |p| <= |s| && s[..|p|] == p {
      assert OccursAt(s, p, 0);
    } else if |s| == 0 {
      assert |p| > 0;
      assert forall i :: !OccursAt(s, p, i);
    } else {
      IncludesIff(s[1..], p);
      if i :| OccursAt(s[1..], p, i) {
        assert s[1..][i..i + |p|] == s[i + 1..i + 1 + |p|];
        assert OccursAt(s, p, i + 1);
      }
      if i :| OccursAt(s, p, i) {
        assert i != 0;
        assert s[1..][i - 1..i - 1 + |p|] == s[i..i + |p|];
        assert OccursAt(s[1..], p, i - 1);
      }
    }
  }

  /** The `value || "No Title"` fallback: a missing or empty title reads "No Title". */
  function TitleOr(t: Option<string>): (r: string)
    ensures r != ""
    ensures t.Some? && t.value != "" ==> r == t.value
    ensures t.None? || t.value == "" ==> r == NoTitle
  {
    if t.Some? && t.value != "" then t.value else NoTitle
  }

  // ---------------------------------------------------------------------
  // The video list
  // ---------------------------------------------------------------------

  /** A content item is rendered as a video: its url is present, non-empty and contains "youtube.com". */
  predicate IsYouTube(c: Content): (b: bool)
    ensures b ==> c.videoUrl.Some? && |c.videoUrl.value| >= |YouTubeHost|
  {
    c.videoUrl.Some? && c.videoUrl.value != "" && Includes(c.videoUrl.value, YouTubeHost)
  }

  /**
   * The iframe source and caption for a YouTube item: the embed prefix
   * followed by the url's `v` parameter, or by the text "null" when the
   * parameter is absent, as the template literal renders a null.
   */
  function Embed(c: Content, queryV: string -> Option<string>): (v: Video)
    requires IsYouTube(c)
    ensures v.key == c.id
    ensures |v.src| >= |EmbedPrefix| && v.src[..|EmbedPrefix|] == EmbedPrefix
    ensures v.src[|EmbedPrefix|..] == queryV(c.videoUrl.value).GetOr("null")
    ensures v.caption == TitleOr(c.videoTitle)
  {
    Video(c.id, EmbedPrefix + queryV(c.videoUrl.value).GetOr("null"), TitleOr(c.videoTitle))
  }

  /** The videos of a run of content items, in order; every other item renders nothing. */
  function ContentVideos(cs: seq<Content>, queryV: string -> Option<string>): (r: seq<Video>)
    ensures |r| <= |cs|
    ensures forall v :: v in r ==> v.caption != "" && |v.src| >= |EmbedPrefix| && v.src[..|EmbedPrefix|] == EmbedPrefix
    decreases |cs|
  {
    if cs == [] then []
    else if IsYouTube(cs[0]) then [Embed(cs[0], queryV)] + ContentVideos(cs[1..], queryV)
    else ContentVideos(cs[1..], queryV)
  }

  /** The flatMap over sections: each section's videos, section after section. */
  function SectionVideos(ss: seq<Section>, queryV: string -> Option<string>): (r: seq<Video>)
    ensures |r| <= |AllContents(ss)|
    ensures forall v :: v in r ==> v.caption != "" && |v.src| >= |EmbedPrefix| && v.src[..|EmbedPrefix|] == EmbedPrefix
    decreases |ss|
  {
    if ss == [] then [] else ContentVideos(ss[0].contents, queryV) + SectionVideos(ss[1..], queryV)
  }

  /** Every content item of every section, in order. */
  function AllContents(ss: seq<Section>): (r: seq<Content>)
    decreases |ss|
  {
    if ss == [] then [] else ss[0].contents + AllContents(ss[1..])
  }

  /** The number of content items that render as videos. */
  function CountYouTube(cs: seq<Content>): (n: nat)
    ensures n <= |cs|
    decreases |cs|
  {
    if cs == [] then 0 else (if IsYouTube(cs[0]) then 1 else 0) + CountYouTube(cs[1..])
  }

  /** Projecting a concatenation projects each part. */
  lemma {:induction false} ContentVideosAppend(a: seq<Content>, b: seq<Content>, queryV: string -> Option<string>)
    ensures ContentVideos(a + b, queryV) == ContentVideos(a, queryV) + ContentVideos(b, queryV)
    decreases |a|
  {
    if a == [] {
      assert a + b == b;
    } else {
      assert (a + b)[0] == a[0];
      assert (a + b)[1..] == a[1..] + b;
      ContentVideosAppend(a[1..], b, queryV);
    }
  }

  /** The section-by-section list equals the projection of all content items in order. */
  lemma {:induction false} SectionVideosFlatten(ss: seq<Section>, queryV: string -> Option<string>)
    ensures SectionVideos(ss, queryV) == ContentVideos(AllContents(ss), queryV)
    decreases |ss|
  {
    if ss != [] {
      SectionVideosFlatten(ss[1..], queryV);
      ContentVideosAppend(ss[0].contents, AllContents(ss[1..]), queryV);
    }
  }

  /** Exactly one video per YouTube item. */
  lemma {:induction false} ContentVideosCount(cs: seq<Content>, queryV: string -> Option<string>)
    ensures |ContentVideos(cs, queryV)| == CountYouTube(cs)
    decreases |cs|
  {
    if cs != [] {
      ContentVideosCount(cs[1..], queryV);
    }
  }

  /** A video is listed exactly when it is the embedding of some YouTube item. */
  lemma {:induction false} ContentVideosMember(cs: seq<Content>, queryV: string -> Option<string>, v: Video)
    ensures v in ContentVideos(cs, queryV) <==> exists i :: 0 <= i < |cs| && IsYouTube(cs[i]) && Embed(cs[i], queryV) == v
    decreases |cs|
  {
    if cs != [] {
      ContentVideosMember(cs[1..], queryV, v);
      if exists i :: 0 <= i < |cs[1..]| && IsYouTube(cs[1..][i]) && Embed(cs[1..][i], queryV) == v {
        var i :| 0 <= i < |cs[1..]| && IsYouTube(cs[1..][i]) && Embed(cs[1..][i], queryV) == v;
        assert cs[i + 1] == cs[1..][i];
      }
      if i :| 0 <= i < |cs| && IsYouTube(cs[i]) && Embed(cs[i], queryV) == v {
        if i > 0 {
          assert cs[1..][i - 1] == cs[i];
        }
      }
    }
  }

  /** A lesson with no YouTube item renders no video. */
  lemma {:induction false} NoYouTubeNoVideos(cs: seq<Content>, queryV: string -> Option<string>)
    requires forall i :: 0 <= i < |cs| ==> !IsYouTube(cs[i])
    ensures ContentVideos(cs, queryV) == []
  {
    ContentVideosCount(cs, queryV);
    CountZero(cs);
  }

  lemma {:induction false} CountZero(cs: seq<Content>)
    requires forall i :: 0 <= i < |cs| ==> !IsYouTube(cs[i])
    ensures CountYouTube(cs) == 0
    decreases |cs|
  {
    if cs != [] {
      CountZero(cs[1..]);
    }
  }

  // ---------------------------------------------------------------------
  // The sidebar and the whole view
  // ---------------------------------------------------------------------

  /** The sidebar: one entry per section, in section order, titled with the fallback. */
  function Sidebar(ss: seq<Section>): (r: seq<string>)
    ensures |r| == |ss|
    ensures forall i :: 0 <= i < |ss| ==> r[i] == TitleOr(ss[i].title)
    decreases |ss|
  {
    if ss == [] then [] else [TitleOr(ss[0].title)] + Sidebar(ss[1..])
  }

  /** The component's output: "Loading..." until a lesson is stored, then the page. */
  function Render(lesson: Option<Lesson>, queryV: string -> Option<string>): (v: View)
    ensures v.Loading? <==> lesson.None?
    ensures lesson.Some? ==>
      && v.heading == lesson.value.lessonTitle
      && v.videos == SectionVideos(lesson.value.sections, queryV)
      && v.sidebar == Sidebar(lesson.value.sections)
      && |v.sidebar| == |lesson.value.sections|
  {
    match lesson
    case None => Loading
    case Some(l) => Page(l.lessonTitle, SectionVideos(l.sections, queryV), Sidebar(l.sections))
  }

  // ---------------------------------------------------------------------
  // Fetching the lesson
  // ---------------------------------------------------------------------

  /**
   * The component's state: the ids it requested from the lesson service, and
   * the stored lesson (None until a fetch succeeds).
   */
  datatype State = State(requested: seq<string>, lesson: Option<Lesson>)

  /**
   * Events after mount: the fetch settles (None when it rejects), or the
   * route's id changes.  The one request settles at most once; a trace with
   * several `Settled` events is more than can happen, and every lemma below
   * holds of the traces that can.
   */
  datatype Event = Settled(outcome: Option<Lesson>) | RouteChanged(newId: string)

  /**
   * Mount: the route id is decoded, re-encoded and the lesson requested
   * once; `decode` and `encode` stand for decodeURIComponent and
   * encodeURIComponent.
   */
  function Mount(routeId: string, decode: string -> string, encode: string -> string): (st: State)
    ensures st.requested == [encode(decode(routeId))]
    ensures st.lesson.None?
  {
    State([encode(decode(routeId))], None)
  }

  /**
   * One event.  A successful fetch stores the lesson; a failed one is only
   * logged.  A changed route id issues no new request: the effect has no
   * dependencies and runs only on mount.
   */
  function Step(st: State, e: Event): (r: State)
    ensures r.requested == st.requested
    ensures e.Settled? && e.outcome.Some? ==> r.lesson == e.outcome
    ensures !(e.Settled? && e.outcome.Some?) ==> r.lesson == st.lesson
  {
    match e
    case Settled(Some(l)) => st.(lesson := Some(l))
    case Settled(None) => st
    case RouteChanged(_) => st
  }

  function Run(st: State, events: seq<Event>): (r: State)
    decreases |events|
  {
    if events == [] then st else Run(Step(st, events[0]), events[1..])
  }

  /** Whatever happens after mount, the lesson is requested exactly once, with the re-encoded id. */
  lemma {:induction false} FetchedOncePerMount(routeId: string, decode: string -> string, encode: string -> string, events: seq<Event>)
    ensures Run(Mount(routeId, decode, encode), events).requested == [encode(decode(routeId))]
  {
    RunKeepsRequests(Mount(routeId, decode, encode), events);
  }

  lemma {:induction false} RunKeepsRequests(st: State, events: seq<Event>)
    ensures Run(st, events).requested == st.requested
    decreases |events|
  {
    if events != [] {
      RunKeepsRequests(Step(st, events[0]), events[1..]);
    }
  }

  /** A successful settlement among the events. */
  predicate SomeSuccess(events: seq<Event>)
  {
    exists i :: 0 <= i < |events| && events[i].Settled? && events[i].outcome.Some?
  }

  /** The view shows "Loading..." exactly until some fetch has succeeded. */
  lemma {:induction false} LoadingUntilSuccess(routeId: string, decode: string -> string, encode: string -> string,
                                               events: seq<Event>, queryV: string -> Option<string>)
    ensures Render(Run(Mount(routeId, decode, encode), events).lesson, queryV).Loading? <==> !SomeSuccess(events)
  {
    RunLesson(Mount(routeId, decode, encode), events);
  }

  lemma {:induction false} SomeSuccessCons(events: seq<Event>)
    requires events != []
    ensures SomeSuccess(events) <==> (events[0].Settled? && events[0].outcome.Some?) || SomeSuccess(events[1..])
  {
  }

  lemma {:induction false} RunLesson(st: State, events: seq<Event>)
    ensures !SomeSuccess(events) ==> Run(st, events).lesson == st.lesson
    ensures SomeSuccess(events) || st.lesson.Some? ==> Run(st, events).lesson.Some?
    decreases |events|
  {
    if events != [] {
      RunLesson(Step(st, events[0]), events[1..]);
      SomeSuccessCons(events);
    }
  }
}
