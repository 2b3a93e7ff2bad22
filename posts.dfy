/**
 * Post creation and update (Api\PostController::store and ::update): the
 * import of a generator image into local storage, and field overwrite.
 */
module Posts {
  import opened Wrappers
  import opened PhpStrings

  /** A post attribute value as the validator hands it over. */
  datatype Attr = Null | Text(s: string) | Number(n: int)

  type Attributes = map<string, Attr>

  /** The keys `update` validates; `campaign_id` and `created_by` are not among them. */
  const UpdateFields: set<string> := {
    "title", "platform", "content", "content_type", "image_path", "link_url",
    "status", "scheduled_at", "published_at"
  }

  /** Content type assumed when the download reply carries none. */
  const DefaultMime: string := "image/png"

  /** The outcome of fetching the temporary image URL. */
  datatype Download = Failed(message: string) | Fetched(status: int, contentType: Option<string>)

  /** PHP's `empty()` on an array entry: missing, null, "", "0" or 0. */
  predicate IsEmpty(v: Option<Attr>)
    ensures v.Some? && v.value.Text? && |v.value.s| >= 2 ==> !IsEmpty(v)
    ensures v.Some? && v.value.Number? && v.value.n != 0 ==> !IsEmpty(v)
  {
    match v
    case None => true
    case Some(Null) => true
    case Some(Text(s)) => s == "" || s == "0"
    case Some(Number(n)) => n == 0
  }

  /** Laravel's `filled`: present and not blank once trimmed. */
  predicate Filled(v: Option<string>)
    ensures Filled(v) ==> v.Some? && |v.value| > 0
    ensures v.Some? && |v.value| > 0 && !IsTrimmed(v.value[0]) ==> Filled(v)
  {
    v.Some? && NotBlank(v.value)
  }

  /** PHP's `str_contains`: `part` occurs somewhere in `s` (case-sensitive). */
  predicate Contains(s: string, part: string)
    ensures Contains(s, part) ==> |part| <= |s|
    ensures |part| <= |s| && s[..|part|] == part ==> Contains(s, part)
    decreases |s|
  {
    |part| <= |s| && (s[..|part|] == part || Contains(s[1..], part))
  }

  /** `part` occurs in `s` starting at position `i`. */
  predicate OccursAt(s: string, part: string, i: int) {
    0 <= i && i + |part| <= |s| && s[i..i + |part|] == part
  }

  /** `Contains` agrees with the positional definition of a substring occurrence. */
  lemma {:induction false} ContainsIffOccurs(s: string, part: string)
    ensures Contains(s, part) <==> exists i :: OccursAt(s, part, i)
    decreases |s|
  {
    if |part| <= |s| {
      if s[..|part|] == part {
        assert OccursAt(s, part, 0);
      } else {
        ContainsIffOccurs(s[1..], part);
        if Contains(s[1..], part) {
          var i :| OccursAt(s[1..], part, i);
          assert s[i + 1..i + 1 + |part|] == s[1..][i..i + |part|];
          assert OccursAt(s, part, i + 1);
        } else {
          forall i | OccursAt(s, part, i) ensures OccursAt(s[1..], part, i - 1) {
            assert s[..|part|] == s[0..|part|];
            assert i != 0;
            var t := s[1..];
            forall k | 0 <= k < |part| ensures t[i - 1..i - 1 + |part|][k] == part[k] {
              assert s[i..i + |part|][k] == part[k];
            }
          }
        }
      }
    }
  }

  /**
   * The extension chosen for a content type, by priority: any "gif" wins,
   * then "jpeg" or "jpg", else png.
   */
  function Extension(mime: string): (ext: string)
    ensures ext in {"png", "jpg", "gif"}
  {
    if Contains(mime, "gif") then "gif"
    else if Contains(mime, "jpeg") || Contains(mime, "jpg") then "jpg"
    else "png"
  }

  /**
   * The image-import step of `store`. A download is requested only when
   * `image_path` is empty and an `image_url` is filled; only an ok reply
   * fills `image_path` with `posts/<stem>.<ext>`, where `stem` is the fresh
   * unique name. Every other case leaves the attributes as validated.
   */
  method ImportImage(validated: Attributes, imageUrl: Option<string>, download: Download, stem: string)
    returns (attrs: Attributes, requested: bool)
    ensures requested <==> IsEmpty(if "image_path" in validated then Some(validated["image_path"]) else None)
                           && Filled(imageUrl)
    ensures requested && download.Fetched? && download.status == 200 ==>
      attrs == validated["image_path" := Text("posts/" + stem + "." +
                                              Extension(download.contentType.GetOr(DefaultMime)))]
    ensures !(requested && download.Fetched? && download.status == 200) ==> attrs == validated
  {
    attrs := validated;
    requested := IsEmpty(if "image_path" in validated then Some(validated["image_path"]) else None)
                 && Filled(imageUrl);
    if requested {
      match download
      case Failed(_) =>
      case Fetched(status, contentType) =>
        if status == 200 {
          var mime := contentType.GetOr(DefaultMime);
          var ext := "png";
          if Contains(mime, "jpeg") || Contains(mime, "jpg") {
            ext := "jpg";
          }
          if Contains(mime, "gif") {
            ext := "gif";
          }
          attrs := attrs["image_path" := Text("posts/" + stem + "." + ext)];
        }
    }
  }

  /** The stored image file name always lives under posts/ with a known extension. */
  lemma ImportedPathShape(stem: string, mime: string)
    ensures var p := "posts/" + stem + "." + Extension(mime);
      p[..6] == "posts/" && p[|p| - 4..] in {".png", ".jpg", ".gif"}
  {
    var ext := Extension(mime);
    var p := "posts/" + stem + "." + ext;
    assert |ext| == 3;
    assert p[..6] == "posts/";
    assert p[|p| - 4..] == "." + ext;
    assert "." + ext == ".png" || "." + ext == ".jpg" || "." + ext == ".gif";
  }

  /** The extension rules: gif beats jpg, jpg beats the png default. */
  lemma ExtensionRules(mime: string)
    ensures Extension(mime) == "gif" <==> Contains(mime, "gif")
    ensures Extension(mime) == "jpg" <==> !Contains(mime, "gif") && (Contains(mime, "jpeg") || Contains(mime, "jpg"))
    ensures Extension(mime) == "png" <==> !Contains(mime, "gif") && !Contains(mime, "jpeg") && !Contains(mime, "jpg")
  {
  }

  /** A missing Content-Type falls back to image/png, and an empty one gives png too. */
  lemma DefaultMimeIsPng()
    ensures Extension(DefaultMime) == "png"
    ensures Extension("") == "png"
  {
    assert 'f' !in DefaultMime && 'j' !in DefaultMime;
    AbsentCharNotContained(DefaultMime, "gif", 2);
    AbsentCharNotContained(DefaultMime, "jpeg", 0);
    AbsentCharNotContained(DefaultMime, "jpg", 0);
  }

  /** The usual image types get their usual extensions. */
  lemma CommonMimes()
    ensures Extension("image/jpeg") == "jpg"
    ensures Extension("image/gif") == "gif"
  {
    assert 'f' !in "image/jpeg";
    AbsentCharNotContained("image/jpeg", "gif", 2);
    assert "image/jpeg"[6..][..4] == "jpeg";
    ContainsSuffix("image/jpeg", "jpeg", 6);
    assert "image/gif"[6..][..3] == "gif";
    ContainsSuffix("image/gif", "gif", 6);
  }

  /** A text lacking one character of `part` cannot contain `part`. */
  lemma {:induction false} AbsentCharNotContained(s: string, part: string, k: nat)
    requires k < |part| && part[k] !in s
    ensures !Contains(s, part)
    decreases |s|
  {
    if |part| <= |s| {
      assert s[..|part|][k] == s[k];
      AbsentCharNotContained(s[1..], part, k);
    }
  }

  /** An occurrence in a suffix is an occurrence in the whole text. */
  lemma {:induction false} ContainsSuffix(s: string, part: string, i: nat)
    requires i <= |s| && Contains(s[i..], part)
    ensures Contains(s, part)
    decreases i
  {
    if i > 0 {
      assert s[1..][i - 1..] == s[i..];
      ContainsSuffix(s[1..], part, i - 1);
    }
  }

  /**
   * The validated subset of an update request overwritten onto the stored
   * attributes: keys it carries take its value, all others keep theirs.
   */
  function Overwrite(attrs: Attributes, input: Attributes): (r: Attributes)
    ensures r.Keys == attrs.Keys + (input.Keys * UpdateFields)
    ensures forall k | k in input && k in UpdateFields :: r[k] == input[k]
    ensures forall k | k in attrs && !(k in input && k in UpdateFields) :: r[k] == attrs[k]
  {
    attrs + map k | k in input && k in UpdateFields :: input[k]
  }

  /** An update can never move a post to another campaign or change its author. */
  lemma UpdateKeepsOwnership(attrs: Attributes, input: Attributes)
    ensures forall k | k in {"campaign_id", "created_by"} && k in attrs :: Overwrite(attrs, input)[k] == attrs[k]
    ensures forall k | k in {"campaign_id", "created_by"} :: k in Overwrite(attrs, input) <==> k in attrs
  {
  }

  /** Updating with the same input twice is the same as updating once. */
  lemma OverwriteIdempotent(attrs: Attributes, input: Attributes)
    ensures Overwrite(Overwrite(attrs, input), input) == Overwrite(attrs, input)
  {
  }

  /** A stored post: its attributes, updated in place. */
  class Post {
    var attributes: Attributes

    constructor Create(attrs: Attributes)
      ensures attributes == attrs
    {
      attributes := attrs;
    }

    /** `update`: overwrite the validated keys present in the request. */
    method Update(input: Attributes)
      modifies this
      ensures attributes == Overwrite(old(attributes), input)
    {
      attributes := Overwrite(attributes, input);
    }
  }

  /** `store`: import the image when asked to, then create the post; always 201. */
  method Store(validated: Attributes, imageUrl: Option<string>, download: Download, stem: string)
    returns (status: int, post: Post)
    ensures fresh(post) && status == 201
    ensures IsEmpty(if "image_path" in validated then Some(validated["image_path"]) else None)
            && Filled(imageUrl) && download.Fetched? && download.status == 200 ==>
      post.attributes == validated["image_path" := Text("posts/" + stem + "." +
                                                        Extension(download.contentType.GetOr(DefaultMime)))]
    ensures !(IsEmpty(if "image_path" in validated then Some(validated["image_path"]) else None)
              && Filled(imageUrl) && download.Fetched? && download.status == 200) ==>
      post.attributes == validated
  {
    var attrs, _ := ImportImage(validated, imageUrl, download, stem);
    post := new Post.Create(attrs);
    status := 201;
  }
}
