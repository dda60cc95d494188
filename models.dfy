/** The response mapper: the `from_api` constructors that turn the decoded JSON of the
    title-detail and manga-viewer endpoints into records, and the image-quality table.
    A dataclass stores whatever value it is given, so every scalar field is kept as the
    `Json` value read from the response (`Null` standing for `None`). */
module Models {
  import opened Errors
  import opened Json

  /** Image quality and its wire token. */
  datatype ImageQuality = Low | High | SuperHigh

  /** The enum's value: the token sent as `img_quality`. */
  function QualityValue(q: ImageQuality): string {
    match q
    case Low => "log"
    case High => "high"
    case SuperHigh => "super_high"
  }

  /** `ImageQuality(s)`: the member whose value is `s`, if there is one. */
  function QualityFromValue(s: string): (q: Option<ImageQuality>)
    ensures q.Some? <==> s == "log" || s == "high" || s == "super_high"
    ensures q.Some? ==> QualityValue(q.value) == s
  {
    if s == "log" then Some(Low)
    else if s == "high" then Some(High)
    else if s == "super_high" then Some(SuperHigh)
    else None
  }

  /** The table is a bijection between the three members and the three tokens. */
  lemma QualityTable(q: ImageQuality, s: string)
    ensures QualityFromValue(s) == Some(q) <==> QualityValue(q) == s
  {}

  // ---------------------------------------------------------------------------------------
  // MangaTitle

  datatype MangaTitle = MangaTitle(
    titleId: Json, name: Json, author: Json,
    portraitImageUrl: Json, landscapeImageUrl: Json, viewCount: Json)

  /** `MangaTitle.from_api`. */
  function MangaTitleFromApi(v: Json): (r: Result<MangaTitle>)
    requires v.Obj?
    ensures r.Ok? <==> "titleId" in v.fields && "name" in v.fields && "author" in v.fields
    ensures r.Err? ==> r.error == KeyError(
      if "titleId" !in v.fields then "titleId"
      else if "name" !in v.fields then "name"
      else "author")
    ensures r.Ok? ==> var d := v.fields;
      r.value == MangaTitle(d["titleId"], d["name"], d["author"],
        Get(d, "portraitImageUrl"), Get(d, "landscapeImageUrl"), Get(d, "viewCount"))
  {
    var d := v.fields;
    var titleId :- Lookup(d, "titleId");
    var name :- Lookup(d, "name");
    var author :- Lookup(d, "author");
    Ok(MangaTitle(titleId, name, author,
      Get(d, "portraitImageUrl"), Get(d, "landscapeImageUrl"), Get(d, "viewCount")))
  }

  /** The API object a title is read back from, every field under its key (a `None` field
      as `null`, which `.get` reads exactly as it reads an absent key). */
  function MangaTitleToApi(t: MangaTitle): Json {
    Obj(map["titleId" := t.titleId, "name" := t.name, "author" := t.author,
            "portraitImageUrl" := t.portraitImageUrl,
            "landscapeImageUrl" := t.landscapeImageUrl,
            "viewCount" := t.viewCount])
  }

  /** Every title survives being written out and mapped back, its absent optional fields
      coming back as `None`. */
  lemma MangaTitleRoundTrip(t: MangaTitle)
    ensures MangaTitleFromApi(MangaTitleToApi(t)) == Ok(t)
  {
    var d := MangaTitleToApi(t).fields;
    assert "titleId" in d && "name" in d && "author" in d;
  }

  /** A title object without `author` fails with `KeyError('author')` once `titleId` and
      `name` are present, and never yields a partial title. */
  lemma MangaTitleWithoutAuthor(v: Json)
    requires v.Obj? && "titleId" in v.fields && "name" in v.fields && "author" !in v.fields
    ensures MangaTitleFromApi(v) == Err(KeyError("author"))
  {}

  // ---------------------------------------------------------------------------------------
  // MangaChapterList

  datatype MangaChapterList = MangaChapterList(
    titleId: Json, chapterId: Json, name: Json, startTimeStamp: Json,
    subTitle: Json, thumbnailUrl: Json, endTimeStamp: Json, alreadyViewed: Json)

  /** `MangaChapterList.from_api`. */
  function MangaChapterListFromApi(v: Json): (r: Result<MangaChapterList>)
    requires v.Obj?
    ensures r.Ok? <==> && "titleId" in v.fields && "chapterId" in v.fields
                       && "name" in v.fields && "startTimeStamp" in v.fields
    ensures r.Err? ==> r.error == KeyError(
      if "titleId" !in v.fields then "titleId"
      else if "chapterId" !in v.fields then "chapterId"
      else if "name" !in v.fields then "name"
      else "startTimeStamp")
    ensures r.Ok? ==> var d := v.fields;
      r.value == MangaChapterList(d["titleId"], d["chapterId"], d["name"], d["startTimeStamp"],
        Get(d, "subTitle"), Get(d, "thumbnailUrl"), Get(d, "endTimeStamp"),
        Get(d, "alreadyViewed", Bool(false)))
  {
    var d := v.fields;
    var titleId :- Lookup(d, "titleId");
    var chapterId :- Lookup(d, "chapterId");
    var name :- Lookup(d, "name");
    var startTimeStamp :- Lookup(d, "startTimeStamp");
    Ok(MangaChapterList(titleId, chapterId, name, startTimeStamp,
      Get(d, "subTitle"), Get(d, "thumbnailUrl"), Get(d, "endTimeStamp"),
      Get(d, "alreadyViewed", Bool(false))))
  }

  /** An entry without `alreadyViewed` is not viewed, and one without `subTitle`,
      `thumbnailUrl` or `endTimeStamp` has `None` there. */
  lemma ChapterEntryDefaults(v: Json)
    requires v.Obj? && MangaChapterListFromApi(v).Ok?
    ensures var e := MangaChapterListFromApi(v).value;
      && ("alreadyViewed" !in v.fields ==> e.alreadyViewed == Bool(false))
      && ("subTitle" !in v.fields ==> e.subTitle == Null)
      && ("thumbnailUrl" !in v.fields ==> e.thumbnailUrl == Null)
      && ("endTimeStamp" !in v.fields ==> e.endTimeStamp == Null)
  {}

  function MangaChapterListToApi(e: MangaChapterList): Json {
    Obj(map["titleId" := e.titleId, "chapterId" := e.chapterId, "name" := e.name,
            "startTimeStamp" := e.startTimeStamp, "subTitle" := e.subTitle,
            "thumbnailUrl" := e.thumbnailUrl, "endTimeStamp" := e.endTimeStamp,
            "alreadyViewed" := e.alreadyViewed])
  }

  lemma MangaChapterListRoundTrip(e: MangaChapterList)
    ensures MangaChapterListFromApi(MangaChapterListToApi(e)) == Ok(e)
  {
    var d := MangaChapterListToApi(e).fields;
    assert "titleId" in d && "chapterId" in d && "name" in d && "startTimeStamp" in d;
  }

  function ChapterListToApi(es: seq<MangaChapterList>): (items: seq<Json>)
    ensures |items| == |es|
    ensures forall i :: 0 <= i < |es| ==> items[i] == MangaChapterListToApi(es[i])
  {
    seq(|es|, i requires 0 <= i < |es| => MangaChapterListToApi(es[i]))
  }

  /** A list of entries written out and mapped element by element comes back unchanged. */
  lemma ChapterListRoundTrip(es: seq<MangaChapterList>)
    ensures MapAll(MangaChapterListFromApi, ChapterListToApi(es)) == Ok(es)
  {
    var items := ChapterListToApi(es);
    forall i | 0 <= i < |es| ensures MangaChapterListFromApi(items[i]) == Ok(es[i]) {
      MangaChapterListRoundTrip(es[i]);
    }
    var r := MapAll(MangaChapterListFromApi, items);
    assert r.value == es;
  }

  // ---------------------------------------------------------------------------------------
  // The `{"success": {...}}` envelope shared by Manga and Chapter

  /** `api_response.get("success", {})`. */
  function Success(resp: map<string, Json>): Json {
    Get(resp, "success", Obj(map[]))
  }

  /** A truthy `success` is an object, so `.get` can be called on it. */
  predicate EnvelopeShaped(resp: map<string, Json>) {
    Truthy(Success(resp)) ==> Success(resp).Obj?
  }

  /** `success.get(key)` when `success` and that value are both truthy; `None` where the
      mappers raise their invalid-payload exception. */
  function EnvelopePayload(resp: map<string, Json>, key: string): (p: Option<Json>)
    requires EnvelopeShaped(resp)
    ensures p.Some? <==> Truthy(Success(resp)) && Truthy(Get(Success(resp).fields, key))
    ensures p.Some? ==> p.value == Success(resp).fields[key]
  {
    var success := Success(resp);
    if !Truthy(success) then None
    else
      var payload := Get(success.fields, key);
      if !Truthy(payload) then None else Some(payload)
  }

  /** `d[key]`, where present, is a list of objects. */
  predicate ObjectListAt(d: map<string, Json>, key: string) {
    key in d ==> d[key].Arr? && forall i :: 0 <= i < |d[key].items| ==> d[key].items[i].Obj?
  }

  // ---------------------------------------------------------------------------------------
  // Manga

  datatype Manga = Manga(
    title: MangaTitle, titleImageUrl: Json, overview: Json, backgroundImageUrl: Json,
    firstChapterList: seq<MangaChapterList>, lastChapterList: seq<MangaChapterList>,
    nextTimeStamp: Json, viewingPeriodDescription: Json)

  /** The title view is an object whose chapter lists and title have the container types the
      mapper indexes and iterates. */
  predicate TitleViewShaped(view: Json) {
    && view.Obj?
    && ObjectListAt(view.fields, "firstChapterList")
    && ObjectListAt(view.fields, "lastChapterList")
    && ("title" in view.fields ==> view.fields["title"].Obj?)
  }

  predicate MangaResponseShaped(resp: map<string, Json>) {
    && EnvelopeShaped(resp)
    && (EnvelopePayload(resp, "titleDetailView").Some? ==>
          TitleViewShaped(EnvelopePayload(resp, "titleDetailView").value))
  }

  const InvalidManga: Error := InvalidPayload("Invalid manga json")

  /** `firstChapterList` is present and every entry of it, and of `lastChapterList` where
      given, maps. */
  predicate ChapterListsLoad(view: Json)
    requires TitleViewShaped(view)
  {
    var d := view.fields;
    && "firstChapterList" in d
    && MapAll(MangaChapterListFromApi, d["firstChapterList"].items).Ok?
    && ("lastChapterList" in d ==> MapAll(MangaChapterListFromApi, d["lastChapterList"].items).Ok?)
  }

  /** ... and so does the `title` object. */
  predicate ViewTitleLoads(view: Json)
    requires TitleViewShaped(view)
  {
    ChapterListsLoad(view) && "title" in view.fields && MangaTitleFromApi(view.fields["title"]).Ok?
  }

  /** The part of `Manga.from_api` after the envelope checks, reading the title view `view`:
      the first chapter list, the last one, the title, then the three required strings, the
      first failure in that order being the one raised. */
  function MangaFromView(view: Json): (r: Result<Manga>)
    requires TitleViewShaped(view)
    ensures r.Ok? <==> && ViewTitleLoads(view) && "titleImageUrl" in view.fields
                       && "overview" in view.fields && "backgroundImageUrl" in view.fields
    ensures r.Err? ==> r.error.KeyError?
    ensures var d := view.fields;
      "firstChapterList" in d && MapAll(MangaChapterListFromApi, d["firstChapterList"].items).Err? ==>
        r == Err(MapAll(MangaChapterListFromApi, d["firstChapterList"].items).error)
    ensures var d := view.fields;
      && "firstChapterList" in d && MapAll(MangaChapterListFromApi, d["firstChapterList"].items).Ok?
      && "lastChapterList" in d && MapAll(MangaChapterListFromApi, d["lastChapterList"].items).Err? ==>
        r == Err(MapAll(MangaChapterListFromApi, d["lastChapterList"].items).error)
    ensures ChapterListsLoad(view) && "title" !in view.fields ==> r == Err(KeyError("title"))
    ensures ChapterListsLoad(view) && "title" in view.fields && MangaTitleFromApi(view.fields["title"]).Err? ==>
              r == Err(MangaTitleFromApi(view.fields["title"]).error)
    ensures ViewTitleLoads(view) && r.Err? ==> r.error == KeyError(
      if "titleImageUrl" !in view.fields then "titleImageUrl"
      else if "overview" !in view.fields then "overview"
      else "backgroundImageUrl")
    ensures r.Ok? ==>
      && var d := view.fields;
      && "firstChapterList" in d && "title" in d && "titleImageUrl" in d
      && "overview" in d && "backgroundImageUrl" in d
      && MapAll(MangaChapterListFromApi, d["firstChapterList"].items) == Ok(r.value.firstChapterList)
      && ("lastChapterList" in d ==>
            MapAll(MangaChapterListFromApi, d["lastChapterList"].items) == Ok(r.value.lastChapterList))
      && ("lastChapterList" !in d ==> r.value.lastChapterList == [])
      && MangaTitleFromApi(d["title"]) == Ok(r.value.title)
      && r.value.titleImageUrl == d["titleImageUrl"]
      && r.value.overview == d["overview"]
      && r.value.backgroundImageUrl == d["backgroundImageUrl"]
      && r.value.nextTimeStamp == Get(d, "nextTimeStamp")
      && r.value.viewingPeriodDescription == Get(d, "viewingPeriodDescription")
    ensures "firstChapterList" !in view.fields ==> r == Err(KeyError("firstChapterList"))
  {
    var d := view.fields;
    var firstItems :- Lookup(d, "firstChapterList");
    var first :- MapAll(MangaChapterListFromApi, firstItems.items);
    var last :- if "lastChapterList" in d then MapAll(MangaChapterListFromApi, d["lastChapterList"].items)
                else Ok([]);
    var titleObject :- Lookup(d, "title");
    var title :- MangaTitleFromApi(titleObject);
    var titleImageUrl :- Lookup(d, "titleImageUrl");
    var overview :- Lookup(d, "overview");
    var backgroundImageUrl :- Lookup(d, "backgroundImageUrl");
    Ok(Manga(title, titleImageUrl, overview, backgroundImageUrl, first, last,
      Get(d, "nextTimeStamp"), Get(d, "viewingPeriodDescription")))
  }

  /** `Manga.from_api`: the envelope must hold a truthy `success` holding a truthy
      `titleDetailView`, which is then read by `MangaFromView`. */
  function MangaFromApi(resp: Json): (r: Result<Manga>)
    requires resp.Obj? && MangaResponseShaped(resp.fields)
    ensures !Truthy(Success(resp.fields)) ==> r == Err(InvalidManga)
    ensures EnvelopePayload(resp.fields, "titleDetailView").None? ==> r == Err(InvalidManga)
    ensures EnvelopePayload(resp.fields, "titleDetailView").Some? ==>
              r == MangaFromView(EnvelopePayload(resp.fields, "titleDetailView").value)
  {
    match EnvelopePayload(resp.fields, "titleDetailView")
    case None => Err(InvalidManga)
    case Some(view) => MangaFromView(view)
  }

  /** A response whose `success` is absent or falsy is rejected before anything else is read. */
  lemma MangaWithoutSuccess(resp: Json)
    requires resp.Obj? && MangaResponseShaped(resp.fields)
    requires "success" !in resp.fields || !Truthy(resp.fields["success"])
    ensures MangaFromApi(resp) == Err(InvalidManga)
  {}

  /** So is one whose `success` holds no truthy `titleDetailView`. */
  lemma MangaWithoutTitleDetailView(resp: Json)
    requires resp.Obj? && MangaResponseShaped(resp.fields)
    requires "success" in resp.fields && resp.fields["success"].Obj?
    requires var s := resp.fields["success"].fields;
             "titleDetailView" !in s || !Truthy(s["titleDetailView"])
    ensures MangaFromApi(resp) == Err(InvalidManga)
  {}

  /** `first_chapter_list` has the length and order of `firstChapterList`, each element
      mapped by `MangaChapterList.from_api`. */
  lemma MangaFirstChapterList(resp: Json)
    requires resp.Obj? && MangaResponseShaped(resp.fields) && MangaFromApi(resp).Ok?
    ensures var d := EnvelopePayload(resp.fields, "titleDetailView").value.fields;
            var items := d["firstChapterList"].items;
            var first := MangaFromApi(resp).value.firstChapterList;
            |first| == |items|
            && forall i :: 0 <= i < |items| ==> Ok(first[i]) == MangaChapterListFromApi(items[i])
  {}

  /** One malformed entry of `firstChapterList` makes the whole mapping fail. */
  lemma MangaMalformedChapterEntry(resp: Json, i: nat)
    requires resp.Obj? && MangaResponseShaped(resp.fields)
    requires EnvelopePayload(resp.fields, "titleDetailView").Some?
    requires var d := EnvelopePayload(resp.fields, "titleDetailView").value.fields;
             "firstChapterList" in d && i < |d["firstChapterList"].items|
             && MangaChapterListFromApi(d["firstChapterList"].items[i]).Err?
    ensures MangaFromApi(resp).Err?
  {}

  /** `last_chapter_list` is empty when `lastChapterList` is absent and otherwise the
      in-order mapping of its elements. */
  lemma MangaLastChapterList(resp: Json)
    requires resp.Obj? && MangaResponseShaped(resp.fields) && MangaFromApi(resp).Ok?
    ensures var d := EnvelopePayload(resp.fields, "titleDetailView").value.fields;
            var last := MangaFromApi(resp).value.lastChapterList;
            && ("lastChapterList" !in d ==> last == [])
            && ("lastChapterList" in d ==>
                  |last| == |d["lastChapterList"].items|
                  && forall i :: 0 <= i < |last| ==>
                       Ok(last[i]) == MangaChapterListFromApi(d["lastChapterList"].items[i]))
  {}

  /** The title view a manga is read from, every field under its key. */
  function MangaViewToApi(m: Manga): Json {
    Obj(map[
        "title" := MangaTitleToApi(m.title),
        "titleImageUrl" := m.titleImageUrl,
        "overview" := m.overview,
        "backgroundImageUrl" := m.backgroundImageUrl,
        "firstChapterList" := Arr(ChapterListToApi(m.firstChapterList)),
        "lastChapterList" := Arr(ChapterListToApi(m.lastChapterList)),
        "nextTimeStamp" := m.nextTimeStamp,
        "viewingPeriodDescription" := m.viewingPeriodDescription])
  }

  /** A response wrapping `view` in the envelope. */
  function Envelope(key: string, view: Json): Json {
    Obj(map["success" := Obj(map[key := view])])
  }

  lemma EnvelopeOpens(key: string, view: Json)
    requires Truthy(view)
    ensures EnvelopeShaped(Envelope(key, view).fields)
    ensures EnvelopePayload(Envelope(key, view).fields, key) == Some(view)
  {
    var resp := Envelope(key, view).fields;
    assert Success(resp) == Obj(map[key := view]);
    assert key in Success(resp).fields;
  }

  lemma MangaViewFields(m: Manga)
    ensures var d := MangaViewToApi(m).fields;
      && "firstChapterList" in d && d["firstChapterList"] == Arr(ChapterListToApi(m.firstChapterList))
      && "lastChapterList" in d && d["lastChapterList"] == Arr(ChapterListToApi(m.lastChapterList))
      && "title" in d && d["title"] == MangaTitleToApi(m.title)
      && "titleImageUrl" in d && d["titleImageUrl"] == m.titleImageUrl
      && "overview" in d && d["overview"] == m.overview
      && "backgroundImageUrl" in d && d["backgroundImageUrl"] == m.backgroundImageUrl
      && Get(d, "nextTimeStamp") == m.nextTimeStamp
      && Get(d, "viewingPeriodDescription") == m.viewingPeriodDescription
  {}

  lemma MangaViewRoundTrip(m: Manga)
    ensures TitleViewShaped(MangaViewToApi(m))
    ensures MangaFromView(MangaViewToApi(m)) == Ok(m)
  {
    var view := MangaViewToApi(m);
    var d := view.fields;
    MangaViewFields(m);
    ChapterListRoundTrip(m.firstChapterList);
    ChapterListRoundTrip(m.lastChapterList);
    MangaTitleRoundTrip(m.title);
    assert TitleViewShaped(view);
    assert MapAll(MangaChapterListFromApi, d["firstChapterList"].items) == Ok(m.firstChapterList);
    assert MapAll(MangaChapterListFromApi, d["lastChapterList"].items) == Ok(m.lastChapterList);
    assert MangaTitleFromApi(d["title"]) == Ok(m.title);
  }

  /** A fully populated title-detail response maps back to every field of the manga. */
  lemma MangaRoundTrip(m: Manga)
    ensures MangaResponseShaped(Envelope("titleDetailView", MangaViewToApi(m)).fields)
    ensures MangaFromApi(Envelope("titleDetailView", MangaViewToApi(m))) == Ok(m)
  {
    var view := MangaViewToApi(m);
    assert "title" in view.fields;
    EnvelopeOpens("titleDetailView", view);
    MangaViewRoundTrip(m);
  }

  /** The title view of `m` with only the keys the mapper requires. */
  function RequiredMangaView(m: Manga): Json {
    Obj(map[
        "firstChapterList" := Arr(ChapterListToApi(m.firstChapterList)),
        "title" := MangaTitleToApi(m.title),
        "titleImageUrl" := m.titleImageUrl,
        "overview" := m.overview,
        "backgroundImageUrl" := m.backgroundImageUrl])
  }

  lemma RequiredMangaViewLoads(m: Manga)
    requires m.lastChapterList == [] && m.nextTimeStamp == Null && m.viewingPeriodDescription == Null
    ensures TitleViewShaped(RequiredMangaView(m))
    ensures MangaFromView(RequiredMangaView(m)) == Ok(m)
  {
    var view := RequiredMangaView(m);
    var d := view.fields;
    assert "firstChapterList" in d && d["firstChapterList"] == Arr(ChapterListToApi(m.firstChapterList));
    assert "title" in d && d["title"] == MangaTitleToApi(m.title);
    assert "titleImageUrl" in d && "overview" in d && "backgroundImageUrl" in d;
    assert "lastChapterList" !in d && "nextTimeStamp" !in d && "viewingPeriodDescription" !in d;
    ChapterListRoundTrip(m.firstChapterList);
    MangaTitleRoundTrip(m.title);
    assert TitleViewShaped(view);
    assert MapAll(MangaChapterListFromApi, d["firstChapterList"].items) == Ok(m.firstChapterList);
    assert MangaTitleFromApi(d["title"]) == Ok(m.title);
  }

  /** A response whose title view has no `lastChapterList`, `nextTimeStamp` or
      `viewingPeriodDescription` still maps: the last list comes back empty and the other
      two as `None`. */
  lemma MangaWithoutOptionalKeys(m: Manga)
    requires m.lastChapterList == [] && m.nextTimeStamp == Null && m.viewingPeriodDescription == Null
    ensures MangaResponseShaped(Envelope("titleDetailView", RequiredMangaView(m)).fields)
    ensures MangaFromApi(Envelope("titleDetailView", RequiredMangaView(m))) == Ok(m)
  {
    assert "title" in RequiredMangaView(m).fields;
    EnvelopeOpens("titleDetailView", RequiredMangaView(m));
    RequiredMangaViewLoads(m);
  }

  // ---------------------------------------------------------------------------------------
  // ChapterPage

  datatype ChapterPage = ChapterPage(imageUrl: Json, width: Json, height: Json, encryptionKey: Json)

  /** A page entry is an object, and a `mangaPage` inside it is an object too. */
  predicate PageEntryShaped(v: Json) {
    v.Obj? && ("mangaPage" in v.fields ==> v.fields["mangaPage"].Obj?)
  }

  /** The object the page fields are read from: `mangaPage` when present, else the entry. */
  function PageObject(v: Json): (p: map<string, Json>)
    requires PageEntryShaped(v)
  {
    if "mangaPage" in v.fields then v.fields["mangaPage"].fields else v.fields
  }

  /** `ChapterPage.from_api`. */
  function ChapterPageFromApi(v: Json): (r: Result<ChapterPage>)
    requires PageEntryShaped(v)
    ensures var p := PageObject(v);
      r.Ok? <==> "imageUrl" in p && "width" in p && "height" in p && "encryptionKey" in p
    ensures var p := PageObject(v);
      r.Err? ==> r.error == KeyError(
        if "imageUrl" !in p then "imageUrl"
        else if "width" !in p then "width"
        else if "height" !in p then "height"
        else "encryptionKey")
    ensures var p := PageObject(v);
      r.Ok? ==> r.value == ChapterPage(p["imageUrl"], p["width"], p["height"], p["encryptionKey"])
  {
    var p := PageObject(v);
    var imageUrl :- Lookup(p, "imageUrl");
    var width :- Lookup(p, "width");
    var height :- Lookup(p, "height");
    var encryptionKey :- Lookup(p, "encryptionKey");
    Ok(ChapterPage(imageUrl, width, height, encryptionKey))
  }

  /** Wrapping a page object in `{"mangaPage": ...}` does not change its mapping, as long as
      the page object does not itself have a `mangaPage` key (which would be unwrapped a
      second time only in the unwrapped call). */
  lemma ChapterPageUnwrap(p: Json)
    requires p.Obj? && "mangaPage" !in p.fields
    ensures PageEntryShaped(Obj(map["mangaPage" := p]))
    ensures ChapterPageFromApi(Obj(map["mangaPage" := p])) == ChapterPageFromApi(p)
  {
    assert PageObject(Obj(map["mangaPage" := p])) == p.fields;
  }

  function ChapterPageToApi(page: ChapterPage): Json {
    Obj(map["imageUrl" := page.imageUrl, "width" := page.width, "height" := page.height,
            "encryptionKey" := page.encryptionKey])
  }

  /** A page written out under `mangaPage` maps back to itself. */
  lemma ChapterPageRoundTrip(page: ChapterPage)
    ensures PageEntryShaped(Obj(map["mangaPage" := ChapterPageToApi(page)]))
    ensures ChapterPageFromApi(Obj(map["mangaPage" := ChapterPageToApi(page)])) == Ok(page)
  {
    var e := Obj(map["mangaPage" := ChapterPageToApi(page)]);
    assert PageObject(e) == ChapterPageToApi(page).fields;
  }

  // ---------------------------------------------------------------------------------------
  // Chapter

  datatype Chapter = Chapter(
    chapterId: Json, titleId: Json, chapters: Json, titleName: Json, chapterName: Json,
    pages: seq<ChapterPage>, numberOfComments: Json, regionCode: Json)

  predicate HasMangaPage(v: Json) {
    v.Obj? && "mangaPage" in v.fields
  }

  /** `filter(lambda x: "mangaPage" in x, items)`. */
  function MangaPageEntries(items: seq<Json>): (r: seq<Json>)
    ensures forall i :: 0 <= i < |r| ==> r[i] in items && HasMangaPage(r[i])
  {
    if items == [] then []
    else (if HasMangaPage(items[0]) then [items[0]] else []) + MangaPageEntries(items[1..])
  }

  /** Filtering a concatenation filters each part and keeps their order; with the one-element
      cases this pins down the filter: an entry is kept exactly when it has `mangaPage`, and
      the kept entries stay in input order. */
  lemma {:induction false} MangaPageEntriesAppend(a: seq<Json>, b: seq<Json>)
    ensures MangaPageEntries(a + b) == MangaPageEntries(a) + MangaPageEntries(b)
    decreases |a|
  {
    if a != [] {
      assert (a + b)[1..] == a[1..] + b;
      MangaPageEntriesAppend(a[1..], b);
    } else {
      assert a + b == b;
    }
  }

  lemma MangaPageEntriesSingle(x: Json)
    ensures MangaPageEntries([x]) == if HasMangaPage(x) then [x] else []
  {
    assert [x][1..] == [];
  }

  /** The viewer is an object whose `pages` is a list of page entries. */
  predicate ViewerShaped(viewer: Json) {
    && viewer.Obj?
    && ("pages" in viewer.fields ==>
          && viewer.fields["pages"].Arr?
          && forall i :: 0 <= i < |viewer.fields["pages"].items| ==>
               PageEntryShaped(viewer.fields["pages"].items[i]))
  }

  predicate ChapterResponseShaped(resp: map<string, Json>) {
    && EnvelopeShaped(resp)
    && (EnvelopePayload(resp, "mangaViewer").Some? ==>
          ViewerShaped(EnvelopePayload(resp, "mangaViewer").value))
  }

  const InvalidChapter: Error := InvalidPayload("Invalid chapter json")

  /** The five keys read before the pages are mapped. */
  predicate ViewerHeadPresent(viewer: Json)
    requires viewer.Obj?
  {
    var d := viewer.fields;
    "chapterId" in d && "chapters" in d && "titleName" in d && "chapterName" in d && "pages" in d
  }

  /** ... are present, and every `mangaPage` entry of `pages` maps. */
  predicate ViewerPagesLoad(viewer: Json)
    requires ViewerShaped(viewer)
  {
    ViewerHeadPresent(viewer)
    && MapAll(ChapterPageFromApi, MangaPageEntries(viewer.fields["pages"].items)).Ok?
  }

  /** The part of `Chapter.from_api` after the envelope checks, reading the viewer object:
      five keys, then the pages, and `titleId` last, the first failure in that order being
      the one raised. */
  function ChapterFromViewer(viewer: Json): (r: Result<Chapter>)
    requires ViewerShaped(viewer)
    ensures r.Ok? <==> ViewerPagesLoad(viewer) && "titleId" in viewer.fields
    ensures r.Err? ==> r.error.KeyError?
    ensures !ViewerHeadPresent(viewer) ==> r.Err? && r.error == KeyError(
      var d := viewer.fields;
      if "chapterId" !in d then "chapterId"
      else if "chapters" !in d then "chapters"
      else if "titleName" !in d then "titleName"
      else if "chapterName" !in d then "chapterName"
      else "pages")
    ensures ViewerHeadPresent(viewer)
            && MapAll(ChapterPageFromApi, MangaPageEntries(viewer.fields["pages"].items)).Err? ==>
              r == Err(MapAll(ChapterPageFromApi, MangaPageEntries(viewer.fields["pages"].items)).error)
    ensures ViewerPagesLoad(viewer) && "titleId" !in viewer.fields ==> r == Err(KeyError("titleId"))
    ensures r.Ok? ==>
      && var d := viewer.fields;
      && "chapterId" in d && "chapters" in d && "titleName" in d && "chapterName" in d
      && "pages" in d && "titleId" in d
      && r.value.chapterId == d["chapterId"]
      && r.value.titleId == d["titleId"]
      && r.value.chapters == d["chapters"]
      && r.value.titleName == d["titleName"]
      && r.value.chapterName == d["chapterName"]
      && MapAll(ChapterPageFromApi, MangaPageEntries(d["pages"].items)) == Ok(r.value.pages)
      && r.value.numberOfComments == Get(d, "numberOfComments", Int(0))
      && r.value.regionCode == Get(d, "regionCode")
  {
    var d := viewer.fields;
    var chapterId :- Lookup(d, "chapterId");
    var chapters :- Lookup(d, "chapters");
    var titleName :- Lookup(d, "titleName");
    var chapterName :- Lookup(d, "chapterName");
    var pageItems :- Lookup(d, "pages");
    var pages :- MapAll(ChapterPageFromApi, MangaPageEntries(pageItems.items));
    var titleId :- Lookup(d, "titleId");
    Ok(Chapter(chapterId, titleId, chapters, titleName, chapterName, pages,
      Get(d, "numberOfComments", Int(0)), Get(d, "regionCode")))
  }

  /** `Chapter.from_api`: the same envelope checks as `MangaFromApi`, on `mangaViewer` and
      with the chapter message, then `ChapterFromViewer`. */
  function ChapterFromApi(resp: Json): (r: Result<Chapter>)
    requires resp.Obj? && ChapterResponseShaped(resp.fields)
    ensures !Truthy(Success(resp.fields)) ==> r == Err(InvalidChapter)
    ensures EnvelopePayload(resp.fields, "mangaViewer").None? ==> r == Err(InvalidChapter)
    ensures EnvelopePayload(resp.fields, "mangaViewer").Some? ==>
              r == ChapterFromViewer(EnvelopePayload(resp.fields, "mangaViewer").value)
  {
    match EnvelopePayload(resp.fields, "mangaViewer")
    case None => Err(InvalidChapter)
    case Some(viewer) => ChapterFromViewer(viewer)
  }

  /** `pages` is the in-order mapping of exactly the `pages` entries that have `mangaPage`. */
  lemma ChapterPages(resp: Json)
    requires resp.Obj? && ChapterResponseShaped(resp.fields) && ChapterFromApi(resp).Ok?
    ensures var d := EnvelopePayload(resp.fields, "mangaViewer").value.fields;
            var kept := MangaPageEntries(d["pages"].items);
            var pages := ChapterFromApi(resp).value.pages;
            |pages| == |kept|
            && forall i :: 0 <= i < |kept| ==> HasMangaPage(kept[i]) && Ok(pages[i]) == ChapterPageFromApi(kept[i])
  {}

  /** `chapters` is the input value unchanged, `numberOfComments` defaults to 0 and
      `regionCode` to `None`. */
  lemma ChapterDefaults(resp: Json)
    requires resp.Obj? && ChapterResponseShaped(resp.fields) && ChapterFromApi(resp).Ok?
    ensures var d := EnvelopePayload(resp.fields, "mangaViewer").value.fields;
            var c := ChapterFromApi(resp).value;
            && c.chapters == d["chapters"]
            && ("numberOfComments" !in d ==> c.numberOfComments == Int(0))
            && ("regionCode" !in d ==> c.regionCode == Null)
  {}

  /** The two envelopes mirror each other: each mapper raises its invalid-payload error
      exactly when it finds no truthy payload under its own key, since nothing the payload
      mappers raise is that error. */
  lemma EnvelopeRejections(resp: Json)
    requires resp.Obj? && MangaResponseShaped(resp.fields) && ChapterResponseShaped(resp.fields)
    ensures MangaFromApi(resp) == Err(InvalidManga) <==>
              EnvelopePayload(resp.fields, "titleDetailView").None?
    ensures ChapterFromApi(resp) == Err(InvalidChapter) <==>
              EnvelopePayload(resp.fields, "mangaViewer").None?
  {}

  /** The entries of a page list that all carry `mangaPage` are all kept. */
  lemma {:induction false} MangaPageEntriesKeepsAll(items: seq<Json>)
    requires forall i :: 0 <= i < |items| ==> HasMangaPage(items[i])
    ensures MangaPageEntries(items) == items
  {
    if items != [] {
      MangaPageEntriesKeepsAll(items[1..]);
    }
  }

  /** The list `[{"mangaPage": A}, {"otherPageType": {}}, {"mangaPage": B}]` keeps the two
      `mangaPage` entries, in order ... */
  lemma FilterSkipsOtherEntries(first: Json, other: Json, last: Json)
    requires HasMangaPage(first) && !HasMangaPage(other) && HasMangaPage(last)
    ensures MangaPageEntries([first, other, last]) == [first, last]
  {
    MangaPageEntriesAppend([first], [other, last]);
    MangaPageEntriesAppend([other], [last]);
    MangaPageEntriesSingle(first);
    MangaPageEntriesSingle(other);
    MangaPageEntriesSingle(last);
    assert [first, other, last] == [first] + [other, last];
    assert [other, last] == [other] + [last];
  }

  /** ... and maps to their two pages. */
  lemma ChapterPagesSkipOtherEntries(a: ChapterPage, b: ChapterPage)
    ensures var first := Obj(map["mangaPage" := ChapterPageToApi(a)]);
            var other := Obj(map["otherPageType" := Obj(map[])]);
            var last := Obj(map["mangaPage" := ChapterPageToApi(b)]);
            MangaPageEntries([first, other, last]) == [first, last]
            && PageEntryShaped(first) && PageEntryShaped(last)
            && MapAll(ChapterPageFromApi, [first, last]) == Ok([a, b])
  {
    var first := Obj(map["mangaPage" := ChapterPageToApi(a)]);
    var other := Obj(map["otherPageType" := Obj(map[])]);
    var last := Obj(map["mangaPage" := ChapterPageToApi(b)]);
    FilterSkipsOtherEntries(first, other, last);
    ChapterPageRoundTrip(a);
    ChapterPageRoundTrip(b);
    var r := MapAll(ChapterPageFromApi, [first, last]);
    assert r.value == [a, b];
  }

  function PagesToApi(pages: seq<ChapterPage>): (items: seq<Json>)
    ensures |items| == |pages|
    ensures forall i :: 0 <= i < |pages| ==> items[i] == Obj(map["mangaPage" := ChapterPageToApi(pages[i])])
  {
    seq(|pages|, i requires 0 <= i < |pages| => Obj(map["mangaPage" := ChapterPageToApi(pages[i])]))
  }

  /** The viewer object a chapter is read from, every field under its key and every page
      wrapped in `mangaPage`. */
  function ChapterViewerToApi(c: Chapter): Json {
    Obj(map[
        "chapterId" := c.chapterId,
        "titleId" := c.titleId,
        "chapters" := c.chapters,
        "titleName" := c.titleName,
        "chapterName" := c.chapterName,
        "pages" := Arr(PagesToApi(c.pages)),
        "numberOfComments" := c.numberOfComments,
        "regionCode" := c.regionCode])
  }

  lemma ChapterViewerFields(c: Chapter)
    ensures var d := ChapterViewerToApi(c).fields;
      && "chapterId" in d && d["chapterId"] == c.chapterId
      && "titleId" in d && d["titleId"] == c.titleId
      && "chapters" in d && d["chapters"] == c.chapters
      && "titleName" in d && d["titleName"] == c.titleName
      && "chapterName" in d && d["chapterName"] == c.chapterName
      && "pages" in d && d["pages"] == Arr(PagesToApi(c.pages))
      && Get(d, "numberOfComments", Int(0)) == c.numberOfComments
      && Get(d, "regionCode") == c.regionCode
  {}

  lemma ChapterViewerRoundTrip(c: Chapter)
    ensures ViewerShaped(ChapterViewerToApi(c))
    ensures ChapterFromViewer(ChapterViewerToApi(c)) == Ok(c)
  {
    var viewer := ChapterViewerToApi(c);
    var d := viewer.fields;
    ChapterViewerFields(c);
    var items := PagesToApi(c.pages);
    forall i | 0 <= i < |items| ensures PageEntryShaped(items[i]) && ChapterPageFromApi(items[i]) == Ok(c.pages[i]) {
      ChapterPageRoundTrip(c.pages[i]);
    }
    MangaPageEntriesKeepsAll(items);
    var r := MapAll(ChapterPageFromApi, items);
    assert r.value == c.pages;
    assert ViewerShaped(viewer);
  }

  /** A fully populated manga-viewer response maps back to every field of the chapter. */
  lemma ChapterRoundTrip(c: Chapter)
    ensures ChapterResponseShaped(Envelope("mangaViewer", ChapterViewerToApi(c)).fields)
    ensures ChapterFromApi(Envelope("mangaViewer", ChapterViewerToApi(c))) == Ok(c)
  {
    var viewer := ChapterViewerToApi(c);
    assert "chapterId" in viewer.fields;
    EnvelopeOpens("mangaViewer", viewer);
    ChapterViewerRoundTrip(c);
  }

  /** `[{"mangaPage": A}, {"otherPageType": {}}, {"mangaPage": B}]`. */
  function MixedPages(a: ChapterPage, b: ChapterPage): seq<Json> {
    [Obj(map["mangaPage" := ChapterPageToApi(a)]),
     Obj(map["otherPageType" := Obj(map[])]),
     Obj(map["mangaPage" := ChapterPageToApi(b)])]
  }

  /** A viewer with those pages and only the keys the mapper requires. */
  function MixedPagesViewer(c: Chapter, a: ChapterPage, b: ChapterPage): Json {
    Obj(map[
        "chapterId" := c.chapterId, "chapters" := c.chapters, "titleName" := c.titleName,
        "chapterName" := c.chapterName, "pages" := Arr(MixedPages(a, b)), "titleId" := c.titleId])
  }

  lemma MixedPagesViewerLoads(c: Chapter, a: ChapterPage, b: ChapterPage)
    requires c.pages == [a, b] && c.numberOfComments == Int(0) && c.regionCode == Null
    ensures ViewerShaped(MixedPagesViewer(c, a, b))
    ensures ChapterFromViewer(MixedPagesViewer(c, a, b)) == Ok(c)
  {
    var viewer := MixedPagesViewer(c, a, b);
    var d := viewer.fields;
    ChapterPagesSkipOtherEntries(a, b);
    assert "chapterId" in d && "chapters" in d && "titleName" in d && "chapterName" in d;
    assert "titleId" in d && "pages" in d && d["pages"].items == MixedPages(a, b);
    assert "numberOfComments" !in d && "regionCode" !in d;
    assert ViewerShaped(viewer);
    assert MapAll(ChapterPageFromApi, MangaPageEntries(d["pages"].items)) == Ok([a, b]);
    assert ViewerPagesLoad(viewer);
    var r := ChapterFromViewer(viewer);
    assert r.Ok?;
    assert r.value.pages == [a, b];
    assert Get(d, "numberOfComments", Int(0)) == Int(0) && Get(d, "regionCode") == Null;
  }

  /** A manga-viewer response whose `pages` mix `mangaPage` entries with another page type
      and which has no `numberOfComments` or `regionCode` maps to a chapter with just the
      `mangaPage` pages, in order, no comments and no region. */
  lemma ChapterSkipsOtherPageTypes(c: Chapter, a: ChapterPage, b: ChapterPage)
    requires c.pages == [a, b] && c.numberOfComments == Int(0) && c.regionCode == Null
    ensures ChapterResponseShaped(Envelope("mangaViewer", MixedPagesViewer(c, a, b)).fields)
    ensures ChapterFromApi(Envelope("mangaViewer", MixedPagesViewer(c, a, b))) == Ok(c)
  {
    assert "chapterId" in MixedPagesViewer(c, a, b).fields;
    EnvelopeOpens("mangaViewer", MixedPagesViewer(c, a, b));
    MixedPagesViewerLoads(c, a, b);
  }
}
