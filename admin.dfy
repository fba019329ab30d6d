/** js/admin.js: the news publishing form of the admin panel (its checks,
    the row it inserts, its reset, the live preview, the media section)
    and the derived figure of the statistics cards. */
module Admin {
  import opened Wrappers
  import JsStrings
  import Auth

  /** String.prototype.length: UTF-16 code units, two for a character
      outside the Basic Multilingual Plane. */
  function Utf16Length(s: string): (n: nat)
    ensures |s| <= n <= 2 * |s|
    ensures n == |s| <==> forall k :: 0 <= k < |s| ==> s[k] as int <= 0xFFFF
  {
    if s == [] then 0
    else Utf16Length(s[..|s| - 1]) + (if s[|s| - 1] as int > 0xFFFF then 2 else 1)
  }

  /** The preview of one field: its text, or the placeholder when empty. */
  datatype FieldPreview = Placeholder | Text(text: string)

  datatype PreviewView = PreviewView(title: FieldPreview, content: FieldPreview, titleCounter: nat, contentCounter: nat)

  /** updatePreview: each field previews as itself (the title escaped,
      the content as text) or as its placeholder when empty; the counters
      are the raw lengths. */
  function UpdatePreview(title: string, content: string): (v: PreviewView)
    ensures v.title == Placeholder <==> title == []
    ensures v.content == Placeholder <==> content == []
    ensures v.title.Text? ==> v.title.text == title
    ensures v.content.Text? ==> v.content.text == content
    ensures v.titleCounter == Utf16Length(title) && v.contentCounter == Utf16Length(content)
  {
    PreviewView(
      if title != [] then Text(title) else Placeholder,
      if content != [] then Text(content) else Placeholder,
      Utf16Length(title), Utf16Length(content))
  }

  /** The media upload section. */
  datatype MediaUploadView = Hidden | Shown(caption: string)

  /** updateMediaUpload: no media section for a text post; otherwise the
      label of the chosen type, or the generic one. */
  function UpdateMediaUpload(postType: string): (v: MediaUploadView)
    ensures v.Hidden? <==> postType == "text"
    ensures postType == "audio" ==> v == Shown("🎵 Fichier audio")
    ensures postType == "video" ==> v == Shown("🎥 Fichier vidéo")
    ensures postType == "file" ==> v == Shown("📎 Fichier (PDF, doc, etc.)")
    ensures postType !in {"text", "audio", "video", "file"} ==> v == Shown("📎 Fichier média")
  {
    if postType == "text" then Hidden
    else if postType == "audio" then Shown("🎵 Fichier audio")
    else if postType == "video" then Shown("🎥 Fichier vidéo")
    else if postType == "file" then Shown("📎 Fichier (PDF, doc, etc.)")
    else Shown("📎 Fichier média")
  }

  /** The row inserted into admin_posts. */
  datatype PostRecord = PostRecord(
    adminId: string, title: string, content: string, postType: string,
    isPublished: bool, publishedAt: Option<string>)

  datatype PublishOutcome =
    | NotAdmin       // refused: the current user is not an admin
    | MissingFields  // refused: empty title or content after trimming
    | Insert(record: PostRecord)

  /** handlePublishSubmit's checks and the row it inserts; `now` is the
      ISO time at submission. */
  function PublishPlan(currentUser: Option<Auth.User>, title: string, content: string, postType: string, status: string, now: string): (o: PublishOutcome)
    ensures o.NotAdmin? <==> currentUser.None? || currentUser.value.role != "admin"
    ensures o.MissingFields? <==> !o.NotAdmin? && (JsStrings.Trim(title) == [] || JsStrings.Trim(content) == [])
    ensures o.Insert? ==>
              && o.record.adminId == currentUser.value.id
              && o.record.title == JsStrings.Trim(title) && o.record.title != []
              && o.record.content == JsStrings.Trim(content) && o.record.content != []
              && o.record.postType == postType
              && (o.record.isPublished <==> status == "published")
              && (o.record.publishedAt.None? <==> !o.record.isPublished)
              && (o.record.isPublished ==> o.record.publishedAt == Some(now))
  {
    if currentUser.None? || currentUser.value.role != "admin" then NotAdmin
    else
      var t := JsStrings.Trim(title);
      var c := JsStrings.Trim(content);
      if t == [] || c == [] then MissingFields
      else
        var published := status == "published";
        Insert(PostRecord(currentUser.value.id, t, c, postType, published, if published then Some(now) else None))
  }

  /** The publishing form: its four fields and the media file input with
      its two previews. */
  class PublishForm {
    var title: string
    var content: string
    var postType: string
    var status: string
    var mediaFile: string
    var filePreviewHidden: bool
    var mediaPreviewHidden: bool

    /** The state resetPublishForm leaves. */
    ghost predicate IsReset()
      reads this
    {
      && title == "" && content == "" && postType == "text" && status == "published"
      && mediaFile == "" && filePreviewHidden && mediaPreviewHidden
    }

    constructor ()
      ensures IsReset()
    {
      title, content, postType, status := "", "", "text", "published";
      mediaFile, filePreviewHidden, mediaPreviewHidden := "", true, true;
    }

    /** clearMediaFile: empties the file input and hides both previews. */
    method ClearMediaFile()
      modifies this
      ensures mediaFile == "" && filePreviewHidden && mediaPreviewHidden
      ensures title == old(title) && content == old(content) && postType == old(postType) && status == old(status)
    {
      mediaFile := "";
      filePreviewHidden := true;
      mediaPreviewHidden := true;
    }

    /** resetPublishForm: empty title and content, type 'text', status
        'published', no media file; the preview shows both placeholders
        with zero counters and the media section is hidden. */
    method ResetPublishForm() returns (preview: PreviewView, media: MediaUploadView)
      modifies this
      ensures IsReset()
      ensures preview == PreviewView(Placeholder, Placeholder, 0, 0)
      ensures media == Hidden
    {
      title := "";
      content := "";
      postType := "text";
      status := "published";
      ClearMediaFile();
      preview := UpdatePreview(title, content);
      media := UpdateMediaUpload(postType);
    }

    /** handlePublishSubmit: the outcome of PublishPlan on the fields; the
        form is reset only after a successful insert. */
    method Submit(currentUser: Option<Auth.User>, now: string, insertSucceeds: bool) returns (o: PublishOutcome)
      modifies this
      ensures o == PublishPlan(currentUser, old(title), old(content), old(postType), old(status), now)
      ensures o.Insert? && insertSucceeds ==> IsReset()
      ensures !(o.Insert? && insertSucceeds) ==>
                && title == old(title) && content == old(content) && postType == old(postType)
                && status == old(status) && mediaFile == old(mediaFile)
                && filePreviewHidden == old(filePreviewHidden) && mediaPreviewHidden == old(mediaPreviewHidden)
    {
      o := PublishPlan(currentUser, title, content, postType, status, now);
      if o.Insert? && insertSucceeds {
        var _, _ := ResetPublishForm();
      }
    }
  }

  /** fn_get_admin_statistics' answer; a missing figure is null. */
  datatype Statistics = Statistics(totalPosts: Option<nat>, totalUsers: Option<nat>)

  datatype StatsView = StatsView(posts: nat, views: nat, users: nat)

  /** `x || 0` for a count that may be null. */
  function CountOrZero(x: Option<nat>): (n: nat)
    ensures x.Some? ==> n == x.value
    ensures x.None? ==> n == 0
  {
    if x.Some? then x.value else 0
  }

  /** loadAdminStats: with an answer, the cards show the counts (0 when
      missing) and an estimate of fifteen views per post; without one
      (None) the cards keep what they showed. */
  function StatsCards(data: Option<Statistics>): (v: Option<StatsView>)
    ensures v.None? <==> data.None?
    ensures v.Some? ==> v.value.posts == CountOrZero(data.value.totalPosts) && v.value.users == CountOrZero(data.value.totalUsers)
    ensures v.Some? ==> v.value.views == 15 * v.value.posts
    ensures v.Some? ==> (v.value.views == 0 <==> v.value.posts == 0)
  {
    match data
    case None => None
    case Some(stats) =>
      var posts := CountOrZero(stats.totalPosts);
      Some(StatsView(posts, if posts != 0 then posts * 15 else 0, CountOrZero(stats.totalUsers)))
  }
}
