/**
 * Draft generation (PostGeneratorController::generate): validate the request,
 * refuse text-only Instagram posts, ask the generation service for a text
 * and, for image posts, an image, and merge whatever came back into
 * `suggested_content` and `temp_image_url`, degrading instead of failing.
 */
module PostGenerator {
  import opened Wrappers
  import opened Json
  import opened PhpStrings

  const Placeholder: string := "No se pudo generar el texto."
  const InstagramTextOnly: string :=
    "Instagram no admite publicaciones solo de texto. Seleccione un tipo con imagen o video."
  const DraftErrorPrefix: string := "Error generando borrador: "
  /** Message of the exception PHP raises when an array is used as a string. */
  const ArrayToString: string := "Array to string conversion"
  const GenerationRoute: string := "/api/v1/marketing/generation/"

  /** Where the generated text may sit in the text service's reply, in order of preference. */
  const TextPaths: seq<seq<string>> := [
    ["payload", "generated_text"],
    ["payload", "candidates", "0", "content", "parts", "0", "text"],
    ["text"],
    ["generated_text"]
  ]
  const SavedImagePath: seq<string> := ["saved_images", "0"]
  /** Direct image URLs in the image service's reply, in order of preference. */
  const ImageUrlPaths: seq<seq<string>> := [["image_url"], ["url"]]

  /** The incoming request; an absent field is None. */
  datatype DraftRequest = DraftRequest(
    prompt: Option<string>,
    platform: Option<string>,
    contentType: Option<string>,
    linkUrl: Option<string>)

  /** A request handed to the concurrent pool, under the alias "text" or "image". */
  datatype UpstreamRequest =
    | TextRequest(endpoint: string, prompt: string, contentType: string, linkUrl: Option<string>)
    | ImageRequest(endpoint: string, prompt: string, sampleCount: int)

  /** What the pool yields for one request: the exception it caught, or the reply. */
  datatype Outcome = Threw(message: string) | Replied(status: int, body: Json)

  datatype Response =
    | Invalid                                          // 422 from the request validator
    | Refused(message: string)                         // 422, success = false
    | Drafted(suggestedContent: Json, tempImageUrl: Json)  // 200, success = true
    | Crashed(message: string)                         // 500, success = false
  {
    function Status(): int {
      match this
      case Invalid => 422
      case Refused(_) => 422
      case Drafted(_, _) => 200
      case Crashed(_) => 500
    }
  }

  /** Laravel's `ok()`: a reply with status 200 exactly. */
  predicate Ok(o: Outcome) {
    o.Replied? && o.status == 200
  }

  /**
   * The validation rules: a prompt that is not blank and has at least five
   * characters, a known platform and content type, and a link that, when
   * given and not blank, is a URL (`isUrl` stands for the framework's URL
   * syntax check, which the validator skips on blank input).
   */
  predicate Validates(req: DraftRequest, isUrl: string -> bool)
    ensures Validates(req, isUrl) ==> req.prompt.Some? && req.platform.Some? && req.contentType.Some?
    ensures Validates(req, isUrl) ==> NotBlank(req.prompt.value) && req.platform.value != req.contentType.value
  {
    && req.prompt.Some? && NotBlank(req.prompt.value) && |req.prompt.value| >= 5
    && req.platform.Some? && req.platform.value in {"facebook", "instagram"}
    && req.contentType.Some? && req.contentType.value in {"image", "text", "video"}
    && (req.linkUrl.Some? && NotBlank(req.linkUrl.value) ==> isUrl(req.linkUrl.value))
  }

  /** A blank prompt is refused by `required`, whatever its length. */
  lemma BlankPromptRefused(req: DraftRequest, isUrl: string -> bool)
    requires req.prompt.Some? && forall i | 0 <= i < |req.prompt.value| :: IsTrimmed(req.prompt.value[i])
    ensures !Validates(req, isUrl)
  {
  }

  /** A blank link is never put to the URL check: it validates exactly as an absent one. */
  lemma BlankLinkUnchecked(req: DraftRequest, isUrl: string -> bool)
    requires req.linkUrl.Some? && !NotBlank(req.linkUrl.value)
    ensures Validates(req, isUrl) <==> Validates(req.(linkUrl := None), isUrl)
  {
  }

  /** PHP's `rtrim(s, '/')`: `s` without its trailing slashes. */
  function TrimTrailingSlashes(s: string): (r: string)
    ensures |r| <= |s| && r == s[..|r|]
    ensures r == [] || r[|r| - 1] != '/'
    ensures forall i | |r| <= i < |s| :: s[i] == '/'
  {
    if s != [] && s[|s| - 1] == '/' then TrimTrailingSlashes(s[..|s| - 1]) else s
  }

  /** The requests an admitted draft request issues: text always, image only for image posts. */
  function Requests(req: DraftRequest, base: string): (r: seq<UpstreamRequest>)
    requires req.prompt.Some? && req.platform.Some? && req.contentType.Some?
    ensures 1 <= |r| <= 2
    ensures |r| == 2 <==> req.contentType.value == "image"
    ensures r[0].TextRequest? && r[0].prompt == req.prompt.value
    ensures r[0].contentType == req.contentType.value && r[0].linkUrl == req.linkUrl
    ensures |r| == 2 ==> r[1].ImageRequest? && r[1].prompt == req.prompt.value && r[1].sampleCount == 1
    ensures r[0].endpoint == TrimTrailingSlashes(base) + GenerationRoute + req.platform.value
    ensures |r| == 2 ==> r[1].endpoint == TrimTrailingSlashes(base) + GenerationRoute + "image"
  {
    var root := TrimTrailingSlashes(base);
    var text := TextRequest(root + GenerationRoute + req.platform.value, req.prompt.value,
                            req.contentType.value, req.linkUrl);
    if req.contentType.value == "image"
    then [text, ImageRequest(root + GenerationRoute + "image", req.prompt.value, 1)]
    else [text]
  }

  /** `suggested_content`: the first generated text found in an ok reply, else the placeholder. */
  function SuggestedContent(text: Outcome): (r: Json)
    ensures !Ok(text) ==> r == JStr(Placeholder)
    ensures r != JNull
  {
    if Ok(text) then FirstPresent(text.body, TextPaths, JStr(Placeholder)) else JStr(Placeholder)
  }

  /** The `id` of a saved-image descriptor, when it is an array holding a non-null `id`. */
  function SavedId(saved: Json): (r: Option<Json>)
    ensures r.Some? <==> saved.JObject? && "id" in saved.fields && saved.fields["id"] != JNull
    ensures r.Some? ==> r.value == saved.fields["id"] && r.value != JNull
  {
    if saved.JObject? && "id" in saved.fields && saved.fields["id"] != JNull
    then Some(saved.fields["id"])
    else None
  }

  /**
   * `temp_image_url` from the image outcome, or None when building it
   * raises: that happens exactly when the saved id is itself an array.
   */
  function TempImageUrl(root: string, image: Outcome): (r: Option<Json>)
    ensures r.None? <==>
      Ok(image) && SavedId(DataGet(image.body, SavedImagePath)).Some?
      && ToPhpString(SavedId(DataGet(image.body, SavedImagePath)).value).None?
    ensures !Ok(image) ==> r == Some(JNull)
  {
    if !Ok(image) then Some(JNull)
    else
      var id := SavedId(DataGet(image.body, SavedImagePath));
      if id.Some? then
        var s := ToPhpString(id.value);
        if s.Some? then Some(JStr(root + GenerationRoute + "image/" + s.value)) else None
      else Some(FirstPresent(image.body, ImageUrlPaths, JNull))
  }

  /** The response once the pool has settled; `image` is None when no image was requested. */
  function Merge(root: string, text: Outcome, image: Option<Outcome>): (r: Response)
    ensures r.Drafted? || r == Crashed(DraftErrorPrefix + ArrayToString)
    ensures r.Drafted? ==> r.suggestedContent == SuggestedContent(text)
    ensures image.None? ==> r.Drafted? && r.tempImageUrl == JNull
  {
    var url := if image.Some? then TempImageUrl(root, image.value) else Some(JNull);
    if url.Some? then Drafted(SuggestedContent(text), url.value)
    else Crashed(DraftErrorPrefix + ArrayToString)
  }

  /**
   * The controller action. `pool` answers each issued request; `sent` is the
   * list of requests handed to it, in the order the source builds them.
   */
  method Generate(req: DraftRequest, base: string, isUrl: string -> bool, pool: UpstreamRequest -> Outcome)
    returns (resp: Response, sent: seq<UpstreamRequest>)
    ensures !Validates(req, isUrl) ==> resp == Invalid && sent == []
    ensures Validates(req, isUrl) && req.platform.value == "instagram" && req.contentType.value == "text"
      ==> resp == Refused(InstagramTextOnly) && sent == []
    ensures Validates(req, isUrl) && !(req.platform.value == "instagram" && req.contentType.value == "text") ==>
      && sent == Requests(req, base)
      && resp == Merge(TrimTrailingSlashes(base), pool(sent[0]),
                       if |sent| == 2 then Some(pool(sent[1])) else None)
    ensures resp.Drafted? || resp.Crashed? ==>
      && Validates(req, isUrl)
      && !(req.platform.value == "instagram" && req.contentType.value == "text")
    ensures resp.Invalid? || resp.Refused? <==> sent == []
    ensures resp.Status() == 422 <==> sent == []
  {
    sent := [];
    if !Validates(req, isUrl) {
      return Invalid, sent;
    }
    var prompt, platform, contentType := req.prompt.value, req.platform.value, req.contentType.value;
    if platform == "instagram" && contentType == "text" {
      return Refused(InstagramTextOnly), sent;
    }

    var root := TrimTrailingSlashes(base);
    sent := sent + [TextRequest(root + GenerationRoute + platform, prompt, contentType, req.linkUrl)];
    if contentType == "image" {
      sent := sent + [ImageRequest(root + GenerationRoute + "image", prompt, 1)];
    }
    var responses: map<string, Outcome> := map["text" := pool(sent[0])];
    if |sent| == 2 {
      responses := responses["image" := pool(sent[1])];
    }

    var text := JStr(Placeholder);
    if "text" in responses {
      var r := responses["text"];
      if r.Replied? && r.status == 200 {
        text := FirstPresent(r.body, TextPaths, text);
      }
    }

    var tempImageUrl := JNull;
    if "image" in responses {
      var r := responses["image"];
      if r.Replied? && r.status == 200 {
        var saved := DataGet(r.body, SavedImagePath);
        if saved.JObject? && "id" in saved.fields && saved.fields["id"] != JNull {
          var id := ToPhpString(saved.fields["id"]);
          if id.None? {
            return Crashed(DraftErrorPrefix + ArrayToString), sent;
          }
          tempImageUrl := JStr(root + GenerationRoute + "image/" + id.value);
        } else {
          tempImageUrl := FirstPresent(r.body, ImageUrlPaths, JNull);
        }
      }
    }
    resp := Drafted(text, tempImageUrl);
  }

  /**
   * The text extraction order: the four locations, tried in turn, each
   * taken when not null; a failed or non-ok reply, or a reply with none of
   * them, gives the placeholder.
   */
  lemma SuggestedContentOrder(text: Outcome)
    ensures !Ok(text) ==> SuggestedContent(text) == JStr(Placeholder)
    ensures Ok(text) ==>
      var b := text.body;
      SuggestedContent(text) ==
        if DataGet(b, ["payload", "generated_text"]) != JNull then DataGet(b, ["payload", "generated_text"])
        else if DataGet(b, ["payload", "candidates", "0", "content", "parts", "0", "text"]) != JNull
          then DataGet(b, ["payload", "candidates", "0", "content", "parts", "0", "text"])
        else if DataGet(b, ["text"]) != JNull then DataGet(b, ["text"])
        else if DataGet(b, ["generated_text"]) != JNull then DataGet(b, ["generated_text"])
        else JStr(Placeholder)
  {
    if Ok(text) {
      var b := text.body;
      var fallback := JStr(Placeholder);
      if DataGet(b, TextPaths[0]) != JNull {
        FirstPresentIsFirst(b, TextPaths, fallback, 0);
      } else if DataGet(b, TextPaths[1]) != JNull {
        FirstPresentIsFirst(b, TextPaths, fallback, 1);
      } else if DataGet(b, TextPaths[2]) != JNull {
        FirstPresentIsFirst(b, TextPaths, fallback, 2);
      } else if DataGet(b, TextPaths[3]) != JNull {
        FirstPresentIsFirst(b, TextPaths, fallback, 3);
      } else {
        FirstPresentFallback(b, TextPaths, fallback);
      }
    }
  }

  /**
   * The image URL rules: a saved image with an id gives the service's image
   * route for that id; otherwise `image_url`, then `url`, then null.
   */
  lemma TempImageUrlOrder(root: string, image: Outcome)
    requires Ok(image)
    ensures var b := image.body;
      var id := SavedId(DataGet(b, ["saved_images", "0"]));
      TempImageUrl(root, image) ==
        if id.Some? then
          (if id.value.JStr? then Some(JStr(root + "/api/v1/marketing/generation/image/" + id.value.s))
           else if id.value.JInt? then Some(JStr(root + "/api/v1/marketing/generation/image/" + IntToString(id.value.n)))
           else if id.value.JBool? then Some(JStr(root + "/api/v1/marketing/generation/image/" + (if id.value.b then "1" else "")))
           else None)
        else if DataGet(b, ["image_url"]) != JNull then Some(DataGet(b, ["image_url"]))
        else if DataGet(b, ["url"]) != JNull then Some(DataGet(b, ["url"]))
        else Some(JNull)
  {
    var b := image.body;
    var id := SavedId(DataGet(b, SavedImagePath));
    assert GenerationRoute + "image/" == "/api/v1/marketing/generation/image/";
    if id.Some? {
      var s := ToPhpString(id.value);
      if s.Some? {
        assert root + GenerationRoute + "image/" + s.value
          == root + "/api/v1/marketing/generation/image/" + s.value;
      }
    } else {
      if DataGet(b, ImageUrlPaths[0]) != JNull {
        FirstPresentIsFirst(b, ImageUrlPaths, JNull, 0);
      } else if DataGet(b, ImageUrlPaths[1]) != JNull {
        FirstPresentIsFirst(b, ImageUrlPaths, JNull, 1);
      } else {
        FirstPresentFallback(b, ImageUrlPaths, JNull);
      }
    }
  }

  /**
   * Partial failure never fails the call: the merge is a 200 draft unless
   * the saved image id is an array, and the image URL is null whenever no
   * image was requested or the image call threw or was not ok.
   */
  lemma MergeDegrades(root: string, text: Outcome, image: Option<Outcome>)
    ensures Merge(root, text, image).Drafted? || Merge(root, text, image) == Crashed(DraftErrorPrefix + ArrayToString)
    ensures image.None? || !Ok(image.value) ==> Merge(root, text, image) == Drafted(SuggestedContent(text), JNull)
    ensures !Ok(text) && Merge(root, text, image).Drafted? ==> Merge(root, text, image).suggestedContent == JStr(Placeholder)
  {
  }

  /** A facebook image draft whose image service saved "img1" and whose text service answered "Hello". */
  lemma ScenarioSavedImage(root: string)
    ensures
      var text := Replied(200, JObject(map["generated_text" := JStr("Hello")]));
      var image := Replied(200, JObject(map["saved_images" := JList([JObject(map["id" := JStr("img1")])])]));
      Merge(root, text, Some(image)) == Drafted(JStr("Hello"), JStr(root + "/api/v1/marketing/generation/image/img1"))
  {
    var text := Replied(200, JObject(map["generated_text" := JStr("Hello")]));
    var image := Replied(200, JObject(map["saved_images" := JList([JObject(map["id" := JStr("img1")])])]));
    var saved := JObject(map["id" := JStr("img1")]);
    DecimalParses(0);
    assert Decimal(0) == "0";
    assert Child(image.body, "saved_images") == JList([saved]);
    assert Child(JList([saved]), "0") == saved;
    assert DataGet(image.body, SavedImagePath) == DataGet(JList([saved]), ["0"]);
    assert SavedId(saved) == Some(JStr("img1"));
    assert root + GenerationRoute + "image/" + "img1" == root + "/api/v1/marketing/generation/image/img1";
    assert TempImageUrl(root, image) == Some(JStr(root + "/api/v1/marketing/generation/image/img1"));
    SuggestedContentOrder(text);
  }

  /** The image call timed out while the text call succeeded: real text, no image. */
  lemma ScenarioImageTimeout(root: string)
    ensures
      var text := Replied(200, JObject(map["payload" := JObject(map["generated_text" := JStr("Hello")])]));
      Merge(root, text, Some(Threw("timeout"))) == Drafted(JStr("Hello"), JNull)
  {
    var text := Replied(200, JObject(map["payload" := JObject(map["generated_text" := JStr("Hello")])]));
    SuggestedContentOrder(text);
  }
}
