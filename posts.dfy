/** js/posts.js: the label of a post's type and the media tiles of the
    news feed. */
module Posts {
  import opened Wrappers
  import JsStrings

  const TEXT_LABEL: string := "📝 Texte"

  /** The names an object literal inherits from Object.prototype; reading
      any of them from `labels` yields a function or an object, never
      undefined. */
  const OBJECT_PROTOTYPE_KEYS: set<string> := {
    "constructor", "hasOwnProperty", "isPrototypeOf", "propertyIsEnumerable",
    "toLocaleString", "toString", "valueOf", "__proto__",
    "__defineGetter__", "__defineSetter__", "__lookupGetter__", "__lookupSetter__"
  }

  /** labels[type] on the object literal as written: one of its own four
      labels (or the fallback), or an inherited Object.prototype member. */
  datatype Lookup = Label(text: string) | Inherited(key: string)

  function OwnLabel(postType: string): (r: Option<string>)
    ensures r.Some? <==> postType in {"text", "audio", "video", "file"}
  {
    if postType == "text" then Some(TEXT_LABEL)
    else if postType == "audio" then Some("🎵 Audio")
    else if postType == "video" then Some("🎥 Vidéo")
    else if postType == "file" then Some("📎 Fichier")
    else None
  }

  /** getPostTypeLabel as written: `labels[type] || '📝 Texte'`. A type
      naming an inherited member is truthy, so that member is what gets
      rendered (a function's source text, or '[object Object]'). A missing
      type (None) reads labels['undefined'] or labels['null']: undefined. */
  function PostTypeLabelAsWritten(postType: Option<string>): (r: Lookup)
    ensures r.Inherited? <==> postType.Some? && postType.value in OBJECT_PROTOTYPE_KEYS
    ensures r.Label? && postType.Some? && OwnLabel(postType.value).Some? ==> r.text == OwnLabel(postType.value).value
  {
    match postType
    case None => Label(TEXT_LABEL)
    case Some(t) =>
      if OwnLabel(t).Some? then Label(OwnLabel(t).value)
      else if t in OBJECT_PROTOTYPE_KEYS then Inherited(t)
      else Label(TEXT_LABEL)
  }

  /** A post typed 'toString' gets no label at all. */
  lemma InheritedKeyIsRendered()
    ensures PostTypeLabelAsWritten(Some("toString")) == Inherited("toString")
  {
  }

  /** getPostTypeLabel with the lookup restricted to the literal's own
      labels: the four fixed labels, and '📝 Texte' for anything else. */
  function PostTypeLabel(postType: Option<string>): (r: string)
    ensures postType == Some("text") ==> r == "📝 Texte"
    ensures postType == Some("audio") ==> r == "🎵 Audio"
    ensures postType == Some("video") ==> r == "🎥 Vidéo"
    ensures postType == Some("file") ==> r == "📎 Fichier"
    ensures r == TEXT_LABEL <==> postType !in {Some("audio"), Some("video"), Some("file")}
  {
    if postType.Some? && OwnLabel(postType.value).Some? then OwnLabel(postType.value).value
    else TEXT_LABEL
  }

  /** The corrected label agrees with the code as written wherever the
      type does not name an inherited member. */
  lemma LabelAgreesOffPrototype(postType: Option<string>)
    requires postType.None? || postType.value !in OBJECT_PROTOTYPE_KEYS
    ensures PostTypeLabelAsWritten(postType) == Label(PostTypeLabel(postType))
  {
  }

  /** An entry of a post's media_files. */
  datatype Media = Media(fileUrl: string, fileType: Option<string>)

  datatype Tile = ImageTile(url: string) | FileTile

  /** A file is shown as an image iff its file_type starts with 'image'. */
  function TileFor(media: Media): (t: Tile)
    ensures t.ImageTile? <==> media.fileType.Some? && JsStrings.StartsWith(media.fileType.value, "image")
    ensures t.ImageTile? ==> t.url == media.fileUrl
  {
    if media.fileType.Some? && JsStrings.StartsWith(media.fileType.value, "image") then ImageTile(media.fileUrl)
    else FileTile
  }

  /** The media grid of a post: absent for a missing or empty list,
      otherwise one tile for each of the first four files, in order. */
  function MediaGrid(mediaFiles: Option<seq<Media>>): (r: Option<seq<Tile>>)
    ensures r.Some? <==> mediaFiles.Some? && |mediaFiles.value| > 0
    ensures r.Some? ==> |r.value| == (if |mediaFiles.value| < 4 then |mediaFiles.value| else 4)
    ensures r.Some? ==> forall i :: 0 <= i < |r.value| ==> r.value[i] == TileFor(mediaFiles.value[i])
  {
    match mediaFiles
    case None => None
    case Some(files) =>
      if |files| == 0 then None
      else
        var shown := if |files| < 4 then files else files[..4];
        Some(seq(|shown|, i requires 0 <= i < |shown| => TileFor(shown[i])))
  }
}
