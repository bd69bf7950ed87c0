/** Turning the location of a synthesized audio file into the public URL
    the messaging provider fetches it from: `build_public_url_from_base` and
    the local-path rewrite of `_send_media_background`. */
module Urls {
  import opened Text
  import opened Filenames

  /** `s.startswith("http://") or s.startswith("https://")`. */
  predicate IsHttpUrl(s: string) {
    "http://" <= s || "https://" <= s
  }

  /** `build_public_url_from_base(base, segment)`: the trimmed base, a slash
      unless the base is empty or already ends in one, then the segment
      without its leading slashes. So the URL starts with the trimmed base,
      ends with the bare segment, and a non-empty base is always separated
      from the segment by exactly one slash of its own or an added one. */
  function BuildPublicUrl(base: string, segment: string): (url: string)
    ensures Strip(base) <= url
    ensures EndsWith(url, LStripChar(segment, '/'))
    ensures Strip(base) == "" ==> url == LStripChar(segment, '/')
    ensures Strip(base) != "" ==>
      var cut := |url| - |LStripChar(segment, '/')|;
      cut - 1 <= |Strip(base)| <= cut && url[cut - 1] == '/'
    ensures |url| == |Strip(base)| + |LStripChar(segment, '/')| + AddedSlash(base)
  {
    var trimmed := Strip(base);
    var prefix := if trimmed != "" && !EndsWith(trimmed, "/") then trimmed + "/" else trimmed;
    prefix + LStripChar(segment, '/')
  }

  /** The number of slashes put between the trimmed base and the segment:
      one, unless the base is empty or already ends in a slash. */
  function AddedSlash(base: string): nat {
    if Strip(base) != "" && !EndsWith(Strip(base), "/") then 1 else 0
  }

  /** Leading slashes on the segment never change the URL. */
  lemma LeadingSlashIgnored(base: string, segment: string)
    ensures BuildPublicUrl(base, "/" + segment) == BuildPublicUrl(base, segment)
  {
    assert ("/" + segment)[1..] == segment;
  }

  /** Writing the base with or without its trailing slash gives the same
      URL. */
  lemma TrailingSlashIgnored(base: string, segment: string)
    requires base != "" && Stripped(base) && !EndsWith(base, "/")
    ensures BuildPublicUrl(base + "/", segment) == BuildPublicUrl(base, segment)
  {
    assert Stripped(base + "/");
    assert EndsWith(base + "/", "/");
  }

  /** The media URL `_send_media_background` sends: a URL is passed on as
      it is; anything else is taken as a local path and served from the
      audio route under its final component. */
  function MediaUrl(media: string, base: string): (url: string)
    ensures IsHttpUrl(media) ==> url == media
    ensures !IsHttpUrl(media) ==> EndsWith(url, "audio/" + Basename(media))
    ensures !IsHttpUrl(media) ==> Strip(base) <= url
    ensures !IsHttpUrl(media) ==> |url| == |Strip(base)| + |"audio/" + Basename(media)| + AddedSlash(base)
    ensures !IsHttpUrl(media) && Strip(base) != "" ==> url[|url| - |"audio/" + Basename(media)| - 1] == '/'
  {
    if IsHttpUrl(media) then media
    else
      var segment := "audio/" + Basename(media);
      assert LStripChar(segment, '/') == segment;
      BuildPublicUrl(base, segment)
  }

  /** The file the synthesizer writes for `filename` is published as
      `<base>/audio/<sanitized filename>`: the rewrite recovers exactly the
      name that was written. */
  lemma MediaUrlOfTargetPath(filename: string, base: string)
    ensures MediaUrl(TargetPath(filename), base) == BuildPublicUrl(base, "audio/" + Sanitize(filename))
  {
    var path := TargetPath(filename);
    assert path[..5] == "audio";
    assert !IsHttpUrl(path);
  }
}
