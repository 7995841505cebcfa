/**
 * The URL of an uploaded file as the serializers report it: none without a
 * file, the storage path under `MEDIA_URL` without a request, and that path
 * made absolute by `build_absolute_uri` with one.
 */
module Media {
  import opened Wrappers

  /** The request in a serializer's context (only what URL building needs). */
  datatype Request = Request(scheme: string, host: string)

  /** `request.build_absolute_uri`, left opaque. */
  type UriBuilder = (Request, string) -> string

  /** `MEDIA_URL` in config/settings.py. */
  const MediaUrl := "/media/"

  /** A `FieldFile` is truthy when it has a non-empty name. */
  predicate HasFile(f: Option<string>) { f.Some? && f.value != "" }

  /** The storage URL of a stored file name. */
  function FilePath(name: string): (p: string)
    ensures |p| == |MediaUrl| + |name| && p[..|MediaUrl|] == MediaUrl && p[|MediaUrl|..] == name
  {
    MediaUrl + name
  }

  /** The three-way choice shared by `avatar_url`, `cover_image_url` and `image_url`. */
  function FileUrl(f: Option<string>, request: Option<Request>, build: UriBuilder): (r: Option<string>)
    ensures r.None? <==> !HasFile(f)
    ensures HasFile(f) && request.Some? ==> r == Some(build(request.value, FilePath(f.value)))
    ensures HasFile(f) && request.None? ==> r == Some(FilePath(f.value))
  {
    if HasFile(f) then
      if request.Some? then Some(build(request.value, FilePath(f.value))) else Some(FilePath(f.value))
    else
      None
  }
}
