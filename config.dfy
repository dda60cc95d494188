/** The configuration loader's `from_yaml` constructors, reading a YAML document already
    decoded into the same value type as the API responses. */
module Config {
  import opened Errors
  import opened Json
  import opened Text
  import opened Models

  datatype ConfigManga = ConfigManga(
    id: Json, title: Json, downloadDir: Json, quality: ImageQuality, komgaId: Json)

  datatype ConfigKomga = ConfigKomga(username: Json, password: Json, baseUrl: Json)

  /** `Config.komga`: a parsed block when the document's value was truthy, otherwise that
      falsy value itself, left as it was read (`Null` when the key is absent). */
  datatype KomgaSetting = Parsed(komga: ConfigKomga) | Unparsed(raw: Json)

  datatype Config = Config(mangaList: seq<ConfigManga>, komga: KomgaSetting)

  /** The lower-cased qualities the loader lets through before looking the enum up. */
  predicate IsAllowedQuality(s: string) {
    s == "low" || s == "high" || s == "super_high"
  }

  /** A manga entry is a mapping whose `quality`, where given, is a string (so that
      `.lower()` applies). */
  predicate MangaEntryShaped(v: Json) {
    v.Obj? && ("quality" in v.fields ==> v.fields["quality"].Str?)
  }

  /** `yaml_data.get("quality", "super_high").lower()`. */
  function RequestedQuality(v: Json): (q: string)
    requires MangaEntryShaped(v)
    ensures "quality" !in v.fields ==> q == "super_high"
  {
    LowerKeepsLowerCase("super_high");
    Lower(Get(v.fields, "quality", Str("super_high")).s)
  }

  /** `ConfigManga.from_yaml`. */
  function ConfigMangaFromYaml(v: Json): (r: Result<ConfigManga>)
    requires MangaEntryShaped(v)
    ensures r.Ok? <==> "id" in v.fields && (RequestedQuality(v) == "high" || RequestedQuality(v) == "super_high")
    ensures !IsAllowedQuality(RequestedQuality(v)) ==> r == Err(InvalidQuality(RequestedQuality(v)))
    ensures IsAllowedQuality(RequestedQuality(v)) && "id" !in v.fields ==> r == Err(KeyError("id"))
    ensures r.Ok? ==>
      && r.value.quality != Low
      && QualityValue(r.value.quality) == RequestedQuality(v)
      && r.value.id == v.fields["id"]
      && r.value.title == Get(v.fields, "title")
      && r.value.downloadDir == Get(v.fields, "downloadDir")
      && r.value.komgaId == Get(v.fields, "komgaId")
  {
    var d := v.fields;
    var imgQuality := RequestedQuality(v);
    if !IsAllowedQuality(imgQuality) then Err(InvalidQuality(imgQuality))
    else
      var id :- Lookup(d, "id");
      var quality :- match QualityFromValue(imgQuality)
                     case Some(q) => Ok(q)
                     case None => Err(NotAnImageQuality(imgQuality));
      Ok(ConfigManga(id, Get(d, "title"), Get(d, "downloadDir"), quality, Get(d, "komgaId")))
  }

  /** An entry without `quality` loads at `SuperHigh`. */
  lemma DefaultQuality(v: Json)
    requires MangaEntryShaped(v) && "id" in v.fields && "quality" !in v.fields
    ensures ConfigMangaFromYaml(v).Ok? && ConfigMangaFromYaml(v).value.quality == SuperHigh
  {
    LowerKeepsLowerCase("super_high");
    assert Get(v.fields, "quality", Str("super_high")) == Str("super_high");
    assert RequestedQuality(v) == "super_high";
  }

  /** The quality is compared after lower-casing: every spelling that lowers to "high" or
      "super_high" loads as that member ("HIGH", "High" and "high" alike). */
  lemma QualityIgnoresCase(v: Json, q: ImageQuality)
    requires MangaEntryShaped(v) && "id" in v.fields && q != Low
    requires "quality" in v.fields && Lower(v.fields["quality"].s) == QualityValue(q)
    ensures ConfigMangaFromYaml(v).Ok? && ConfigMangaFromYaml(v).value.quality == q
  {}

  lemma HighInAnyCase()
    ensures Lower("HIGH") == "high" && Lower("High") == "high" && Lower("high") == "high"
  {
    LowerIgnoresCase("HIGH", "high");
    LowerIgnoresCase("High", "high");
    LowerKeepsLowerCase("high");
  }

  /** A quality outside the allow-list is refused with the lower-cased value. */
  lemma UnknownQuality(v: Json)
    requires MangaEntryShaped(v) && "quality" in v.fields
    requires !IsAllowedQuality(Lower(v.fields["quality"].s))
    ensures ConfigMangaFromYaml(v) == Err(InvalidQuality(Lower(v.fields["quality"].s)))
  {}

  /** "low", in any letter case, passes the allow-list but then fails the enum lookup,
      because `ImageQuality.Low`'s value is "log": no configured manga ever loads at Low. */
  lemma LowNeverLoads(v: Json)
    requires MangaEntryShaped(v) && "id" in v.fields && "quality" in v.fields
    requires Lower(v.fields["quality"].s) == "low"
    ensures IsAllowedQuality("low")
    ensures QualityFromValue("low") == None
    ensures ConfigMangaFromYaml(v) == Err(NotAnImageQuality("low"))
  {}

  /** `ConfigKomga.from_yaml`. */
  function ConfigKomgaFromYaml(v: Json): (r: Result<ConfigKomga>)
    requires v.Obj?
    ensures r.Ok? <==> "username" in v.fields && "password" in v.fields && "baseUrl" in v.fields
    ensures r.Err? ==> r.error == KeyError(
      if "username" !in v.fields then "username"
      else if "password" !in v.fields then "password"
      else "baseUrl")
    ensures r.Ok? ==> r.value == ConfigKomga(v.fields["username"], v.fields["password"], v.fields["baseUrl"])
  {
    var d := v.fields;
    var username :- Lookup(d, "username");
    var password :- Lookup(d, "password");
    var baseUrl :- Lookup(d, "baseUrl");
    Ok(ConfigKomga(username, password, baseUrl))
  }

  /** The document is a mapping whose `manga`, where given, is a list of manga entries, and
      whose `komga`, where truthy, is a mapping. */
  predicate ConfigShaped(d: map<string, Json>) {
    && ("manga" in d ==>
          && d["manga"].Arr?
          && forall i :: 0 <= i < |d["manga"].items| ==> MangaEntryShaped(d["manga"].items[i]))
    && (Truthy(Get(d, "komga")) ==> Get(d, "komga").Obj?)
  }

  /** `yaml_data.get("manga", [])`. */
  function MangaEntries(d: map<string, Json>): seq<Json>
    requires ConfigShaped(d)
  {
    Get(d, "manga", Arr([])).items
  }

  /** A truthy `komga` block, where there is one, loads. */
  predicate KomgaLoads(d: map<string, Json>)
    requires ConfigShaped(d)
  {
    Truthy(Get(d, "komga")) ==> ConfigKomgaFromYaml(Get(d, "komga")).Ok?
  }

  /** `Config.from_yaml`: every manga entry, then the `komga` block when it is truthy. */
  function ConfigFromYaml(d: map<string, Json>): (r: Result<Config>)
    requires ConfigShaped(d)
    ensures r.Ok? <==> MapAll(ConfigMangaFromYaml, MangaEntries(d)).Ok? && KomgaLoads(d)
    ensures && MapAll(ConfigMangaFromYaml, MangaEntries(d)).Ok?
            && Truthy(Get(d, "komga")) && ConfigKomgaFromYaml(Get(d, "komga")).Err? ==>
              r == Err(ConfigKomgaFromYaml(Get(d, "komga")).error)
    ensures MapAll(ConfigMangaFromYaml, MangaEntries(d)).Err? ==>
              r == Err(MapAll(ConfigMangaFromYaml, MangaEntries(d)).error)
    ensures r.Ok? ==> MapAll(ConfigMangaFromYaml, MangaEntries(d)) == Ok(r.value.mangaList)
    ensures r.Ok? ==> match r.value.komga
                      case Unparsed(raw) => raw == Get(d, "komga") && !Truthy(raw)
                      case Parsed(k) => Truthy(Get(d, "komga")) && ConfigKomgaFromYaml(Get(d, "komga")) == Ok(k)
  {
    var mangaList :- MapAll(ConfigMangaFromYaml, MangaEntries(d));
    var komga := Get(d, "komga");
    if Truthy(komga) then
      var parsed :- ConfigKomgaFromYaml(komga);
      Ok(Config(mangaList, Parsed(parsed)))
    else Ok(Config(mangaList, Unparsed(komga)))
  }

  /** `manga_list` is empty without a `manga` key, and otherwise holds one entry per
      element, in order; a single failing element aborts the whole load, and with every
      element loading the load succeeds exactly when the `komga` block does. */
  lemma ConfigMangaList(d: map<string, Json>)
    requires ConfigShaped(d)
    ensures "manga" !in d ==> (ConfigFromYaml(d).Ok? <==> KomgaLoads(d))
    ensures "manga" !in d && ConfigFromYaml(d).Ok? ==> ConfigFromYaml(d).value.mangaList == []
    ensures "manga" in d ==>
      var items := d["manga"].items;
      var r := ConfigFromYaml(d);
      && (r.Ok? <==> (forall i :: 0 <= i < |items| ==> ConfigMangaFromYaml(items[i]).Ok?) && KomgaLoads(d))
      && (r.Ok? ==> |r.value.mangaList| == |items|
                    && forall i :: 0 <= i < |items| ==> Ok(r.value.mangaList[i]) == ConfigMangaFromYaml(items[i]))
  {}

  /** Once the manga entries load, a truthy `komga` block without `username` fails the whole
      load with `KeyError('username')`. */
  lemma KomgaWithoutUsername(d: map<string, Json>)
    requires ConfigShaped(d) && MapAll(ConfigMangaFromYaml, MangaEntries(d)).Ok?
    requires Truthy(Get(d, "komga")) && "username" !in Get(d, "komga").fields
    ensures ConfigFromYaml(d) == Err(KeyError("username"))
  {}

  /** `komga` is `None` when the key is absent or null, a parsed block when its value is
      truthy, and the falsy value itself (such as `{}`) otherwise. */
  lemma ConfigKomgaSetting(d: map<string, Json>)
    requires ConfigShaped(d) && ConfigFromYaml(d).Ok?
    ensures var k := ConfigFromYaml(d).value.komga;
      && ("komga" !in d || d["komga"] == Null ==> k == Unparsed(Null))
      && ("komga" in d && d["komga"] == Obj(map[]) ==> k == Unparsed(Obj(map[])))
      && ("komga" in d && Truthy(d["komga"]) ==> k == Parsed(ConfigKomgaFromYaml(d["komga"]).value))
  {}
}
