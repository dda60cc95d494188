/** `MangaPlusAPI`: the requests it issues and what it makes of the replies. The transport
    is outside the model; each operation takes the reply's status and (parsed) body as
    inputs and returns the request it issues beside its result. */
module Client {
  import opened Errors
  import opened Json
  import opened Bytes
  import opened Text
  import opened Models
  import Hex
  import ImageDecode

  const UserAgent: string :=
    "Mozilla/5.0 (Windows NT 10.0; Win64; x64) AppleWebKit/537.36 (KHTML, like Gecko) Chrome/102.0.0.0 Safari/537.36"
  const BaseApi: string := "https://jumpg-webapi.tokyo-cdn.com/api"

  /** A title or chapter id, which callers may pass as a number or as text. */
  datatype Id = IntId(n: int) | TextId(text: string)

  /** `str(id)`. */
  function IdString(id: Id): string {
    match id
    case IntId(n) => IntToDecimal(n)
    case TextId(text) => text
  }

  /** Query parameters or headers, in insertion order. */
  type Pairs = seq<(string, string)>

  /** The value under `key`, if the list has one. */
  function Find(pairs: Pairs, key: string): Option<string> {
    if pairs == [] then None
    else if pairs[0].0 == key then Some(pairs[0].1)
    else Find(pairs[1..], key)
  }

  function Keys(pairs: Pairs): (keys: seq<string>)
    ensures |keys| == |pairs|
  {
    if pairs == [] then [] else [pairs[0].0] + Keys(pairs[1..])
  }

  datatype Request = Request(url: string, params: Pairs, headers: Pairs)

  /** The parameters of `get_manga`. */
  function TitleDetailParams(titleId: Id): Pairs {
    [("title_id", IdString(titleId)), ("format", "json")]
  }

  /** The parameters of `get_chapter`. */
  function MangaViewerParams(chapterId: Id, quality: ImageQuality): Pairs {
    [("chapter_id", IdString(chapterId)), ("split", "no"), ("img_quality", QualityValue(quality)),
     ("format", "json")]
  }

  /** `get_manga` sends the id as text and asks for JSON; a numeric id can be read back
      from the text. */
  lemma TitleDetailParamsSent(titleId: Id)
    ensures var p := TitleDetailParams(titleId);
      && Keys(p) == ["title_id", "format"]
      && Find(p, "title_id") == Some(IdString(titleId))
      && Find(p, "format") == Some("json")
      && (titleId.IntId? ==> ParseInt(Find(p, "title_id").value) == Some(titleId.n))
  {
    if titleId.IntId? {
      IntToDecimalRoundTrip(titleId.n);
    }
  }

  /** `get_chapter` sends the id as text, `split=no`, `format=json` and the quality's wire
      token, from which the quality can be read back. */
  lemma MangaViewerParamsSent(chapterId: Id, quality: ImageQuality)
    ensures var p := MangaViewerParams(chapterId, quality);
      && Keys(p) == ["chapter_id", "split", "img_quality", "format"]
      && Find(p, "chapter_id") == Some(IdString(chapterId))
      && Find(p, "split") == Some("no")
      && Find(p, "format") == Some("json")
      && Find(p, "img_quality") == Some(QualityValue(quality))
      && QualityFromValue(Find(p, "img_quality").value) == Some(quality)
      && (chapterId.IntId? ==> ParseInt(Find(p, "chapter_id").value) == Some(chapterId.n))
  {
    var p := MangaViewerParams(chapterId, quality);
    assert Keys(p[3..]) == ["format"] && Find(p[3..], "format") == Some("json");
    assert Keys(p[2..]) == ["img_quality", "format"] && Find(p[2..], "format") == Some("json");
    assert Find(p[2..], "img_quality") == Some(QualityValue(quality));
    assert Keys(p[1..]) == ["split", "img_quality", "format"] && Find(p[1..], "format") == Some("json");
    if chapterId.IntId? {
      IntToDecimalRoundTrip(chapterId.n);
    }
  }

  /** `response.raise_for_status()`: statuses from 400 up raise. */
  predicate StatusFails(status: int) { status >= 400 }

  class MangaPlusApi {
    /** The headers of every request; the session token is a fresh UUID per client in the
        program, and a parameter here. */
    const headers: Pairs

    constructor (sessionToken: string)
      ensures headers == [("User-Agent", UserAgent), ("Session-Token", sessionToken)]
    {
      headers := [("User-Agent", UserAgent), ("Session-Token", sessionToken)];
    }

    /** `get_manga(title_id)` against a reply with `status` and the decoded `body`. */
    method GetManga(titleId: Id, status: int, body: Json) returns (request: Request, r: Result<Manga>)
      requires !StatusFails(status) ==> body.Obj? && MangaResponseShaped(body.fields)
      ensures request == Request(BaseApi + "/title_detail", TitleDetailParams(titleId), headers)
      ensures StatusFails(status) ==> r == Err(HttpStatus(status))
      ensures !StatusFails(status) ==> r == MangaFromApi(body)
    {
      request := Request(BaseApi + "/title_detail", TitleDetailParams(titleId), headers);
      if StatusFails(status) {
        r := Err(HttpStatus(status));
      } else {
        r := MangaFromApi(body);
      }
    }

    /** `get_chapter(chapter_id, quality=ImageQuality.SuperHigh)` against a reply with `status`
        and `body`; a call that names no quality asks for `SuperHigh`. */
    method GetChapter(chapterId: Id, quality: ImageQuality := SuperHigh, status: int, body: Json)
      returns (request: Request, r: Result<Chapter>)
      requires !StatusFails(status) ==> body.Obj? && ChapterResponseShaped(body.fields)
      ensures request == Request(BaseApi + "/manga_viewer", MangaViewerParams(chapterId, quality), headers)
      ensures StatusFails(status) ==> r == Err(HttpStatus(status))
      ensures !StatusFails(status) ==> r == ChapterFromApi(body)
    {
      request := Request(BaseApi + "/manga_viewer", MangaViewerParams(chapterId, quality), headers);
      if StatusFails(status) {
        r := Err(HttpStatus(status));
      } else {
        r := ChapterFromApi(body);
      }
    }

    /** `get_image(image_url, encryption_key)` against a reply with `status` and the raw
        bytes `imageData`: the bytes are copied into a buffer, the key is decoded, and every
        buffer byte is XOR-ed in place with the key byte at its position modulo the key
        length. */
    method GetImage(imageUrl: string, encryptionKey: string, status: int, imageData: seq<byte>)
      returns (request: Request, r: Result<seq<byte>>)
      ensures request == Request(imageUrl, [], headers)
      ensures StatusFails(status) ==> r == Err(HttpStatus(status))
      ensures !StatusFails(status) ==> r == ImageDecode.Deobfuscate(imageData, encryptionKey)
    {
      request := Request(imageUrl, [], headers);
      if StatusFails(status) {
        return request, Err(HttpStatus(status));
      }
      var imageArray := new byte[|imageData|](i requires 0 <= i < |imageData| => imageData[i]);
      var decodedKey := Hex.FromHex(encryptionKey);
      if decodedKey.Err? {
        return request, Err(decodedKey.error);
      }
      var key := decodedKey.value;
      var a := |key|;
      var s := 0;
      while s < imageArray.Length
        invariant 0 <= s <= imageArray.Length == |imageData|
        invariant s > 0 ==> a > 0
        invariant forall j :: 0 <= j < s ==> imageArray[j] == Xor(imageData[j], key[j % a])
        invariant forall j :: s <= j < imageArray.Length ==> imageArray[j] == imageData[j]
      {
        if a == 0 {
          return request, Err(ZeroDivision);
        }
        imageArray[s] := Xor(imageArray[s], key[s % a]);
        s := s + 1;
      }
      if a == 0 {
        assert imageData == [];
        return request, Ok([]);
      }
      ImageDecode.RepeatingXorAt(imageData, key);
      assert imageArray[..] == ImageDecode.RepeatingXor(imageData, key);
      r := Ok(imageArray[..]);
    }
  }
}
