/**
 * Input classification for `to_pil_image`: an image object is used as it
 * is, raw bytes are decoded, a `data:image/...;base64,` string is decoded
 * from the text after its first comma, and any other string is fetched as
 * a URL. Decoding and fetching themselves are outside the model; whether
 * they succeed is an input.
 */
module Images {
  import opened Wrappers
  import opened Framing

  /** A decoded image; `closed` records `Image.close()`. */
  class Image {
    var closed: bool

    constructor ()
      ensures !closed
    {
      closed := false;
    }

    method Close()
      modifies this`closed
      ensures closed
    {
      closed := true;
    }
  }

  /** What a request may carry as its image. */
  datatype ImageSource = PilImage(image: Image) | Raw(data: seq<byte>) | Text(text: string)

  /** The HTTP status every conversion failure is reported with. */
  const UnprocessableEntity: int := 422

  const DataImagePrefix: string := "data:image/"
  const Base64Marker: string := ";base64,"

  predicate NoNewline(s: string) {
    forall i :: 0 <= i < |s| ==> s[i] != '\n'
  }

  /** `;base64,` starts at position `k` of `s`. */
  predicate MarkerAt(s: string, k: int) {
    0 <= k && k + |Base64Marker| <= |s| && s[k..k + |Base64Marker|] == Base64Marker
  }

  /**
   * `re.match(r'^data:image/.+;base64,', s)`: the prefix, at least one
   * character other than a newline, then the marker.
   */
  predicate IsDataImageUrl(s: string) {
    && |DataImagePrefix| <= |s|
    && s[..|DataImagePrefix|] == DataImagePrefix
    && exists k | |DataImagePrefix| < k <= |s| :: MarkerAt(s, k) && NoNewline(s[|DataImagePrefix|..k])
  }

  /** The index of the first comma of `s`. */
  function FirstComma(s: string): (i: nat)
    requires ',' in s
    ensures i < |s| && s[i] == ','
    ensures forall j :: 0 <= j < i ==> s[j] != ','
  {
    if s[0] == ',' then 0 else 1 + FirstComma(s[1..])
  }

  /** Every data URL holds a comma (the marker ends with one), so splitting it never fails. */
  lemma DataImageUrlHasComma(s: string)
    requires IsDataImageUrl(s)
    ensures ',' in s
  {
    var k :| |DataImagePrefix| < k <= |s| && MarkerAt(s, k) && NoNewline(s[|DataImagePrefix|..k]);
    assert s[k + |Base64Marker| - 1] == Base64Marker[|Base64Marker| - 1];
  }

  /** How `to_pil_image` obtains the image. */
  datatype Route = AsIs(image: Image) | OpenBytes(data: seq<byte>) | DecodeBase64(payload: string) | FetchUrl(url: string)

  /** The branch `to_pil_image` takes for `src`. */
  function RouteOf(src: ImageSource): (r: Route)
    ensures src.PilImage? <==> r.AsIs?
    ensures src.PilImage? ==> r.image == src.image
    ensures src.Raw? <==> r.OpenBytes?
    ensures src.Raw? ==> r.data == src.data
    ensures r.DecodeBase64? <==> src.Text? && IsDataImageUrl(src.text)
    ensures r.DecodeBase64? ==>
              var s, n := src.text, |r.payload|;
              n < |s| && s[|s| - n..] == r.payload && s[|s| - n - 1] == ',' &&
              forall j :: 0 <= j < |s| - n - 1 ==> s[j] != ','
    ensures r.FetchUrl? <==> src.Text? && !IsDataImageUrl(src.text)
    ensures r.FetchUrl? ==> r.url == src.text
  {
    match src
    case PilImage(image) => AsIs(image)
    case Raw(data) => OpenBytes(data)
    case Text(s) =>
      if IsDataImageUrl(s) then
        DataImageUrlHasComma(s);
        DecodeBase64(s[FirstComma(s) + 1..])
      else
        FetchUrl(s)
  }

  /**
   * A well-formed data URL, whose media type holds neither a comma nor a
   * newline, is decoded from exactly the text after the marker.
   */
  lemma WellFormedDataUrl(mediaType: string, data: string)
    requires mediaType != [] && ',' !in mediaType && NoNewline(mediaType)
    ensures IsDataImageUrl(DataImagePrefix + mediaType + Base64Marker + data)
    ensures RouteOf(Text(DataImagePrefix + mediaType + Base64Marker + data)) == DecodeBase64(data)
  {
    var s := DataImagePrefix + mediaType + Base64Marker + data;
    var k := |DataImagePrefix| + |mediaType|;
    assert s[..|DataImagePrefix|] == DataImagePrefix;
    assert s[k..k + |Base64Marker|] == Base64Marker;
    assert s[|DataImagePrefix|..k] == mediaType;
    assert MarkerAt(s, k);
    assert IsDataImageUrl(s);
    var comma := k + |Base64Marker| - 1;
    assert s[comma] == ',';
    forall j | 0 <= j < comma ensures s[j] != ',' {
      if j < |DataImagePrefix| {
        assert s[j] == DataImagePrefix[j];
      } else if j < k {
        assert s[j] == mediaType[j - |DataImagePrefix|];
      } else {
        assert s[j] == Base64Marker[j - k];
      }
    }
    var r := RouteOf(Text(s));
    var n := |r.payload|;
    assert |s| - n - 1 == comma;
    assert s[comma + 1..] == data;
  }

  /**
   * `to_pil_image`: `decodes` says whether opening, base64-decoding or
   * fetching along the chosen route succeeds. Every failure becomes an
   * HTTP 422 error.
   */
  method ToPilImage(src: ImageSource, decodes: bool) returns (r: Result<Image, int>)
    ensures src.PilImage? ==> r == Ok(src.image)
    ensures !src.PilImage? ==> (r.Ok? <==> decodes)
    ensures !src.PilImage? && r.Ok? ==> fresh(r.value) && !r.value.closed
    ensures r.Err? ==> r.error == UnprocessableEntity
  {
    match RouteOf(src)
    case AsIs(image) =>
      r := Ok(image);
    case _ =>
      if decodes {
        var image := new Image();
        r := Ok(image);
      } else {
        r := Err(UnprocessableEntity);
      }
  }

  /** Whether converting `src` yields an image. */
  predicate Loads(src: ImageSource, decodes: bool) {
    src.PilImage? || decodes
  }
}
