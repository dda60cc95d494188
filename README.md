# clocktower: a Dafny model of the MANGA Plus client core

This project models the core of `clocktower`, a client for the MANGA Plus web API, and
proves properties of the model. It covers three pieces.

- **Image de-obfuscation** in `MangaPlusAPI.get_image`. The page key is decoded with
  `bytes.fromhex`. The downloaded bytes are copied into a buffer, and each byte `s` is
  XOR-ed in place with key byte `s mod len(key)`. `Client.MangaPlusApi.GetImage` keeps that
  loop over an `array` and proves it equal to the value-level specification
  `ImageDecode.Deobfuscate`. The properties proved about that specification are: length
  kept, per-byte formula, involution, one-byte and long keys, empty key, empty image and
  malformed key.
- **The response mapper** (`MangaTitle`, `MangaChapterList`, `Manga`, `ChapterPage` and
  `Chapter`, each with `from_api`, plus the `ImageQuality` table). JSON is the datatype
  `Json.Json`. Python truthiness is the separate predicate `Json.Truthy`. Each `from_api`
  is a function returning `Result`. A dataclass stores whatever value it is given, so
  scalar fields stay `Json` values, with `Null` standing for `None`. `Json.MapAll` is
  `list(map(f, xs))`: it applies `f` in order, and the first element that fails aborts the
  whole list. Every mapper has an inverse encoder, and round-trip lemmas show that every
  field comes back.
- **The config mapper** (`ConfigManga`, `ConfigKomga` and `Config`, each with `from_yaml`).
  It checks the quality against an allow-list after lower-casing it. The allow-list accepts
  `"low"`, but the value of `ImageQuality.Low` is `"log"`, so the enum lookup then fails.
  The model reproduces this and proves it (`Config.LowNeverLoads`): no configured manga
  ever loads at `Low`.

The query parameters of `get_manga` and `get_chapter` are pure functions. Their lemmas show
that the id and the quality can be read back from the parameters that are sent.

Facts about the source that a reader might not expect, all kept by the model:

- `raise_for_status` is aiohttp's check, which raises only for a status of 400 or more.
  A 3xx or other non-2xx status below 400 still has its body mapped.
- `ChapterPage.from_api` stores `encryptionKey`, `width` and `height` as given. It does not
  check that the key is hexadecimal or that the sizes are positive.
- `ConfigManga.from_yaml` lets "low" past its allow-list, in any letter case. It then fails
  at `ImageQuality("low")`, because the value of `ImageQuality.Low` is "log".
- The envelope errors are the bare messages "Invalid manga json" (models.py:97, 101) and
  "Invalid chapter json" (models.py:158, 162). They do not name the missing key.
- `.get("alreadyViewed", False)` keeps a present `null` as `None`. Only an absent key
  gives `False`.
- `get_chapter` asks for `ImageQuality.SuperHigh` when the caller names no quality.

## Model

| member | source | states |
|---|---|---|
| `Client.TitleDetailParamsSent` | clocktower/mp/client.py:50 | `get_manga` sends exactly `title_id` (the id as text) then `format=json`; a numeric id parses back from the text |
| `Client.MangaViewerParamsSent` | clocktower/mp/client.py:61-66 | `get_chapter` sends `chapter_id` as text, `split=no`, `img_quality` equal to the quality's wire token, and `format=json`, in that order; the id and the quality can both be read back |
| `Client.TitleDetailParams` | clocktower/mp/client.py:50 | the `get_manga` query parameters, in insertion order (stated by `TitleDetailParamsSent`) |
| `Client.MangaViewerParams` | clocktower/mp/client.py:61-66 | the `get_chapter` query parameters, in insertion order (stated by `MangaViewerParamsSent`) |
| `Client.IdString` | clocktower/mp/client.py:62 | `str(chapter_id)` of an `int` or `str` id: the decimal text of a number, a string unchanged |
| `Text.IntToDecimal` | clocktower/mp/client.py:50 | `str(n)` of an integer is non-empty and starts with `-` exactly when `n` is negative |
| `Text.IntToDecimalRoundTrip` | clocktower/mp/client.py:50 | `str(n)` of any integer id parses back to `n` |
| `Client.MangaPlusApi.constructor` | clocktower/mp/client.py:41-45 | the header set is fixed at construction: the user agent and the session token |
| `Client.MangaPlusApi.GetManga` | clocktower/mp/client.py:48-57 | issues the title-detail request with the fixed headers; a failing status raises with that status; otherwise the result is `Manga.from_api` of the body |
| `Client.MangaPlusApi.GetChapter` | clocktower/mp/client.py:59-73 | issues the manga-viewer request for the given quality, `SuperHigh` when none is named; a failing status raises; otherwise the result is `Chapter.from_api` of the body |
| `Client.MangaPlusApi.GetImage` | clocktower/mp/client.py:75-85 | a failing status raises; otherwise the in-place XOR loop over the copied buffer returns exactly `Deobfuscate(data, key)`, including the malformed-key and empty-key errors |
| `ImageDecode.DeobfuscateAt` | clocktower/mp/client.py:80-85 | a successful decode has the length of the download, and byte `s` is `data[s] XOR key[s mod len(key)]` |
| `ImageDecode.RepeatingXorAt` | clocktower/mp/client.py:83-84 | XOR with the key repeated end to end gives byte `s` as `data[s] XOR key[s mod len(key)]` and keeps the length |
| `ImageDecode.KeyStreamAt` | clocktower/mp/client.py:84 | the key repeated end to end has byte `s` equal to `key[s mod len(key)]` |
| `ImageDecode.DeobfuscateTwice` | clocktower/mp/client.py:83-84 | decoding the decoded bytes again with the same key gives back the downloaded bytes |
| `Bytes.XorTwice` | clocktower/mp/client.py:84 | XOR with the same byte twice is the identity |
| `ImageDecode.SingleByteKey` | clocktower/mp/client.py:82-84 | a one-byte key XORs every byte with that same byte |
| `ImageDecode.LongKeyUsedOnce` | clocktower/mp/client.py:82-84 | with a key at least as long as the image, byte `s` uses key byte `s`, so no key byte is used twice |
| `ImageDecode.EmptyKeyFails` | clocktower/mp/client.py:82-84 | an empty key on a non-empty image fails with a division by zero |
| `ImageDecode.EmptyImage` | clocktower/mp/client.py:82-84 | an empty image decodes to an empty image under every well-formed key, including the empty key |
| `ImageDecode.MalformedKeyFails` | clocktower/mp/client.py:81 | a key that `bytes.fromhex` rejects fails with that error, whatever the image bytes |
| `ImageDecode.Deobfuscate` | clocktower/mp/client.py:80-85 | a decoded image has the length of the download; the only failures are a malformed key and a division by zero on a non-empty image |
| `Hex.FromHexAccepts` | clocktower/mp/client.py:81 | a key without whitespace decodes exactly when it is an even number of hex digits, and then gives half as many bytes |
| `Hex.OddLengthKeyFails` | clocktower/mp/client.py:81 | an odd-length key without whitespace never decodes |
| `Hex.HexRoundTrip` | clocktower/mp/client.py:81 | `bytes.fromhex(b.hex()) == b` for every byte string |
| `Hex.FromHex` | clocktower/mp/client.py:81 | `bytes.fromhex`: a result holds at most one byte per two characters, and every failure names a position within the string or just past its end |
| `Models.QualityFromValue` | clocktower/mp/models.py:185-188 | `ImageQuality(s)` succeeds exactly for "log", "high" and "super_high", and returns the member whose value is `s` |
| `Models.QualityTable` | clocktower/mp/models.py:185-188 | the member-to-token table is a bijection: lookup by value and value of member are inverse |
| `Models.QualityValue` | clocktower/mp/models.py:185-188 | `quality.value`, the token sent as `img_quality`: "log", "high", "super_high" (a bijection by `QualityTable`) |
| `Models.MangaTitleFromApi` | clocktower/mp/models.py:46-54 | succeeds exactly when `titleId`, `name` and `author` are present, and otherwise raises `KeyError` on the first one missing; the URLs and `viewCount` are `None` when absent |
| `Models.MangaTitleWithoutAuthor` | clocktower/mp/models.py:48-50 | a title object without `author` fails with `KeyError('author')` and yields no partial title |
| `Models.MangaTitleRoundTrip` | clocktower/mp/models.py:46-54 | every title written out as an API object maps back to itself |
| `Models.MangaChapterListFromApi` | clocktower/mp/models.py:69-79 | succeeds exactly when `titleId`, `chapterId`, `name` and `startTimeStamp` are present, and otherwise raises `KeyError` on the first one missing |
| `Models.ChapterEntryDefaults` | clocktower/mp/models.py:75-78 | an entry without `alreadyViewed` is not viewed; an entry without `subTitle`, `thumbnailUrl` or `endTimeStamp` has `None` there |
| `Models.MangaChapterListRoundTrip` | clocktower/mp/models.py:69-79 | every chapter-list entry written out maps back to itself |
| `Json.MapAll` | clocktower/mp/models.py:103 | `list(map(f, xs))` succeeds exactly when every element does; the result then has the same length and order; otherwise the error is that of the first failing element |
| `Models.ChapterListRoundTrip` | clocktower/mp/models.py:103 | a written-out list of entries maps back to the same list |
| `Models.EnvelopePayload` | clocktower/mp/models.py:95-101 | the payload is found exactly when `success` (default `{}`) is truthy and its value under the key is truthy |
| `Models.MangaFromApi` | clocktower/mp/models.py:94-116 | fails with "Invalid manga json" when `success` is falsy or holds no truthy `titleDetailView`; otherwise it is the title-view mapping |
| `Models.MangaFromView` | clocktower/mp/models.py:103-116 | succeeds exactly when `firstChapterList` and every entry of it map, `lastChapterList` (where given) maps, `title` is present and maps, and `titleImageUrl`, `overview` and `backgroundImageUrl` are present; otherwise the first failure in that order is raised, each a `KeyError`; on success both chapter lists are the element-wise mappings (the last one empty when absent), the title is mapped, and `nextTimeStamp`/`viewingPeriodDescription` are `None` when absent |
| `Models.MangaWithoutSuccess` | clocktower/mp/models.py:95-97 | an absent or falsy `success` fails with "Invalid manga json" |
| `Models.MangaWithoutTitleDetailView` | clocktower/mp/models.py:99-101 | an absent or falsy `titleDetailView` fails with "Invalid manga json" |
| `Models.MangaFirstChapterList` | clocktower/mp/models.py:103 | `first_chapter_list` has the length and order of `firstChapterList`, and each element is mapped by `MangaChapterList.from_api` |
| `Models.MangaMalformedChapterEntry` | clocktower/mp/models.py:103 | one malformed `firstChapterList` entry fails the whole mapping |
| `Models.MangaLastChapterList` | clocktower/mp/models.py:104-106 | `last_chapter_list` is empty when `lastChapterList` is absent, and otherwise is the element-wise mapping in order |
| `Models.MangaViewRoundTrip` | clocktower/mp/models.py:103-116 | a fully populated title view maps back to the manga |
| `Models.MangaRoundTrip` | clocktower/mp/models.py:94-116 | a fully populated title-detail response, envelope included, maps back to every field of the manga |
| `Models.MangaWithoutOptionalKeys` | clocktower/mp/models.py:103-116 | a title view lacking `lastChapterList`, `nextTimeStamp` and `viewingPeriodDescription` still maps, giving an empty last list and `None` for the other two |
| `Models.ChapterPageFromApi` | clocktower/mp/models.py:127-140 | reads `mangaPage` when present, else the entry itself; succeeds exactly when `imageUrl`, `width`, `height` and `encryptionKey` are there, and otherwise raises `KeyError` on the first one missing |
| `Models.ChapterPageUnwrap` | clocktower/mp/models.py:128-129 | `{"mangaPage": p}` maps like `p` whenever `p` has no `mangaPage` key of its own |
| `Models.ChapterPageRoundTrip` | clocktower/mp/models.py:127-140 | a page written out under `mangaPage` maps back to itself |
| `Models.MangaPageEntries` | clocktower/mp/models.py:169 | the filter keeps only entries that have `mangaPage`, all drawn from the input |
| `Models.MangaPageEntriesAppend` | clocktower/mp/models.py:169 | filtering a concatenation is the concatenation of the filtered parts, so input order is kept |
| `Models.MangaPageEntriesSingle` | clocktower/mp/models.py:169 | a single entry is kept exactly when it has `mangaPage` |
| `Models.MangaPageEntriesKeepsAll` | clocktower/mp/models.py:169 | a list whose entries all have `mangaPage` is kept whole |
| `Models.FilterSkipsOtherEntries` | clocktower/mp/models.py:168-170 | of `[mangaPage, other, mangaPage]` exactly the first and the last entry survive, in order |
| `Models.ChapterPagesSkipOtherEntries` | clocktower/mp/models.py:168-170 | those two surviving entries map to their two pages, in order |
| `Models.ChapterFromViewer` | clocktower/mp/models.py:164-182 | succeeds exactly when `chapterId`, `chapters`, `titleName`, `chapterName` and `pages` are present, every `mangaPage` entry maps, and `titleId` is present; otherwise the first failure in that order is raised, `titleId` being read after the pages; on success `chapters` is the input value unchanged, `pages` is the mapping of the `mangaPage` entries, `number_of_comments` defaults to 0 and `region_code` to `None` |
| `Models.ChapterFromApi` | clocktower/mp/models.py:155-182 | fails with "Invalid chapter json" when `success` is falsy or holds no truthy `mangaViewer`; otherwise it is the viewer mapping |
| `Models.ChapterPages` | clocktower/mp/models.py:168-170 | `pages` has one page per kept entry, in order, each mapped by `ChapterPage.from_api` |
| `Models.ChapterDefaults` | clocktower/mp/models.py:165-172 | `chapters` is copied unchanged; an absent `numberOfComments` gives 0 and an absent `regionCode` gives `None` |
| `Models.EnvelopeRejections` | clocktower/mp/models.py:94-101 | the manga mapper raises "Invalid manga json" exactly when there is no truthy `success` holding a truthy `titleDetailView`, and the chapter mapper raises "Invalid chapter json" exactly when there is none holding a truthy `mangaViewer` (models.py:155-162) |
| `Models.ChapterViewerRoundTrip` | clocktower/mp/models.py:164-182 | a fully populated viewer object maps back to the chapter |
| `Models.ChapterRoundTrip` | clocktower/mp/models.py:155-182 | a fully populated manga-viewer response maps back to every field of the chapter |
| `Models.ChapterSkipsOtherPageTypes` | clocktower/mp/models.py:164-182 | a manga-viewer response whose `pages` are `[mangaPage A, other page type, mangaPage B]` and which lacks `numberOfComments` and `regionCode` maps to a chapter with pages `[A, B]`, 0 comments and no region |
| `Text.Lower` | clocktower/config.py:29 | lower-casing keeps the length and lowers each ASCII capital |
| `Text.LowerIgnoresCase` | clocktower/config.py:29 | strings that agree up to letter case lower to the same string |
| `Json.Truthy` | clocktower/mp/models.py:96 | Python truthiness of a JSON value, used by every `if not …` test (models.py:100, 157, 161 and config.py:66): `None`, `False`, 0 and empty strings, lists and dicts are falsy |
| `Config.RequestedQuality` | clocktower/config.py:29 | `yaml_data.get("quality", "super_high").lower()`; without a `quality` key it is "super_high" |
| `Config.ConfigMangaFromYaml` | clocktower/config.py:28-38 | a quality outside the allow-list raises; a missing `id` raises `KeyError`; the entry loads exactly when `id` is present and the lowered quality is "high" or "super_high"; a loaded entry is never `Low` |
| `Config.DefaultQuality` | clocktower/config.py:29-36 | an entry without `quality` loads at `SuperHigh` |
| `Config.QualityIgnoresCase` | clocktower/config.py:29-36 | any spelling that lowers to "high" or "super_high" loads as that member |
| `Config.HighInAnyCase` | clocktower/config.py:29 | "HIGH", "High" and "high" all lower to "high" |
| `Config.UnknownQuality` | clocktower/config.py:30-31 | a lowered quality outside {"low", "high", "super_high"} raises the invalid-quality error with that value |
| `Config.LowNeverLoads` | clocktower/config.py:30-36 | "low" in any case passes the allow-list but fails the enum lookup, because the value of `Low` is "log" |
| `Config.ConfigKomgaFromYaml` | clocktower/config.py:48-53 | succeeds exactly when `username`, `password` and `baseUrl` are present, and otherwise raises `KeyError` on the first one missing |
| `Config.ConfigFromYaml` | clocktower/config.py:62-71 | the load succeeds exactly when every manga entry loads and a truthy `komga` block loads; a failing manga entry aborts with its error, and then a failing `komga` block aborts with its `KeyError`; on success `manga_list` is the element-wise mapping, and `komga` is parsed when its value is truthy and otherwise kept as that falsy value |
| `Config.ConfigMangaList` | clocktower/config.py:63-67 | `manga_list` is empty without `manga`, and otherwise has one entry per element in order; with `komga` absent, falsy or complete, the load succeeds exactly when every element does |
| `Config.ConfigKomgaSetting` | clocktower/config.py:65-67 | `komga` is `None` when absent or null, stays `{}` when given as `{}`, and is parsed when truthy |
| `Config.KomgaWithoutUsername` | clocktower/config.py:65-67 | once the manga entries load, a truthy `komga` block without `username` fails the whole load with `KeyError('username')` |

## Left out

- Network I/O is not modelled: the aiohttp session, `async with` requests, the session's
  own default headers, and `response.text()`/`read()`. Each client method takes the reply
  status and the already-decoded body or bytes as parameters.
- `orjson.loads` is a foreign parser. The model starts from a decoded `Json` value.
- `uuid4()` is randomness. The session token is a constructor parameter.
- `parse_config` reads a file and calls the ruamel YAML loader, both outside the model.
  `Config.ConfigFromYaml` starts from the decoded document.
- Python type errors are excluded by preconditions, because the code does no type
  checking. These errors are an `AttributeError` or `TypeError` from `.get` on a non-dict,
  from indexing or iterating a value of the wrong container type, or from `.lower()` on a
  non-string quality. The `*Shaped` predicates state those preconditions. A scalar of the
  wrong type is simply stored, as the dataclasses do.
- JSON floating-point numbers are not part of the `Json` datatype.
- Text.Lower: only ASCII letters are lowered, where Python lowers all of Unicode. The
  allow-list outcome is the same, because no non-ASCII character lowers to a single
  character of "low", "high" or "super_high". The lowered value inside an invalid-quality
  error can differ for non-ASCII input.
- `ImageDecode.Deobfuscate` decodes hex following CPython's `bytes.fromhex` (non-ASCII
  check first, then whitespace skipped before each pair). Error messages are reduced to the
  reported position.
- `MangaPlusAPI.BASE_URL` is unused by the modelled operations.
