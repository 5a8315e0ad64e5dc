# crowler-imobiliaria in Dafny

A model of the rental-listing scraper *crowler-imobiliaria*, with proofs about it. The scraper covers Curitiba's real-estate sites and has these parts:

- **Three providers.** Galvão, Apolar and Zap Imóveis each turn a filter dictionary (neighbourhoods, price ceiling, room floor, area floor) into one search URL per neighbourhood. Each reads the listing cards on the page, throws away cards outside the searched area or outside the filters, and returns one record per kept card.
- **`crowler.py`.** A standalone Apolar scraper over a fixed neighbourhood list.
- **`main.py`.** Runs the enabled providers and stores every record at most once, keyed by its link.
- **`cron_report.py`.** Selects the stored items updated in the last eight hours, drops duplicate ids, and mails a digest.

The model keeps the computations and the decisions. The browser, the HTML parser, the database and the mail service become parameters or plain values:

- **The browser.** A provider's page visit is a function `browse` from URL to cards. `None` stands for a navigation error or a selector timeout; a card is a datatype with optional fields for the tags BeautifulSoup may or may not find.
- **The database.** The DynamoDB table is a class `Ingest.Table` holding a map from `id_imovel` to item. Its conditional put is `PutIfAbsent`. Items whose put fails with an unconditional error are given as a set of batch positions.
- **Time.** Timestamps are integers in seconds. `now` is a parameter.

Modules, one per file:

| file | module | models |
|---|---|---|
| `wrappers.dfy` | `Wrappers` | `Option` |
| `text.dfy` | `Text` | the Python string operations the source uses: `isspace`/`strip`, `in`, `startswith`, `replace`, `lower`/`title`, `isdigit`, `int()` of a float, `str()` of an int |
| `normalize.dfy` | `Normalize` | `formatar_slug` / `formatar_bairro`, both `limpar_numero` variants, `limpar_texto` |
| `listing.dfy` | `Listing` | the filter dictionary, the record dictionary, the price/room re-check |
| `url.dfy` | `Url` | `urllib.parse.quote`, `quote_plus`, `urlencode` over UTF-8 |
| `apolar_format.dfy` | `ApolarFormat` | `formatar_dinheiro_url`, `formatar_area_url` |
| `galvao.dfy`, `apolar.dfy`, `zap.dfy` | `Galvao`, `Apolar`, `Zap` | each provider's `run` |
| `crowler.dfy` | `Crowler` | `crowler.py` |
| `ingest.dfy` | `Ingest` | `main.py` |
| `report.dfy` | `Report` | `cron_report.py` |

Each provider's `run` has the same layers:

- **Decision.** One function (`Decide`) says what a card contributes.
- **Spec functions.** `Kept` covers one page and `ResultsFor` all neighbourhoods.
- **Loop methods.** `ScanPage` and `Run` hold the source's loops. Each is proved equal to its spec function.
- **Soundness lemmas.** These state what every returned record satisfies.

## Model

| member | source | states |
|---|---|---|
| Text.Strip | providers/galvao.py:10 | the result has no whitespace at either end, is no longer than the input, and holds only characters of the input |
| Text.StripTrimmed | providers/galvao.py:10 | stripping text that has no surrounding whitespace leaves it unchanged |
| Text.StrippedText | providers/zap_imoveis.py:108 | `get_text(strip=True)` has no whitespace at either end, and on a single fragment it is that fragment's `strip()` |
| Text.ConcatTrimmed | providers/zap_imoveis.py:108 | joining fragments that have no surrounding whitespace gives text without surrounding whitespace |
| Text.Contains | providers/galvao.py:98 | Python's substring `in`; its meaning is stated by Text.ContainsAt |
| Text.ReplaceAll | crowler.py:20 | Python's `replace`, left to right and without overlaps; stated by Text.ReplaceCharAt, Text.RemoveChar, Text.ReplaceAbsent and Text.ReplaceLead |
| Text.StripAfterSpace | crowler.py:62 | stripping `" " + s` gives `s` back when `s` is non-empty and has no surrounding whitespace |
| Text.ReplaceCharAt | providers/galvao.py:10 | replacing one character by another changes exactly the positions holding it and keeps the length |
| Text.RemoveChar | crowler.py:20 | deleting a character removes every occurrence of it and adds nothing |
| Text.ReplaceAbsent | crowler.py:62 | a replacement whose pattern's first character does not occur changes nothing |
| Text.DeletePatternChars | crowler.py:62 | deleting a pattern introduces no new character |
| Text.ContainsAt | providers/galvao.py:98 | the `in` test holds if and only if the needle occurs at some index |
| Text.ContainsIndex | providers/apolar.py:94 | a successful `in` test yields an index where the needle occurs |
| Text.OccursContains | providers/apolar.py:99 | an occurrence at any index makes the `in` test succeed |
| Text.ReplaceLead | providers/zap_imoveis.py:49 | replacing "Da " by "da " (any pattern and replacement that differ only in a first character absent from the rest) changes exactly the first character of each occurrence |
| Text.NoPatternAfterReplace | providers/zap_imoveis.py:49 | after such a replacement the pattern no longer occurs |
| Text.ReplaceKeepsAbsent | providers/zap_imoveis.py:49 | such a replacement does not create an occurrence of a text that lacks the new lead character |
| Text.ReplaceLeadLower | providers/zap_imoveis.py:49 | when the two lead characters differ only in case, the replacement leaves the lower-cased text unchanged |
| Text.ToLower | providers/galvao.py:118 | lower-casing keeps casedness and whitespace, keeps ASCII, and leaves no upper-case letter |
| Text.ToUpper | providers/zap_imoveis.py:49 | upper-casing keeps casedness and leaves no lower-case letter |
| Text.Lower | providers/galvao.py:118 | `lower()` keeps the length and leaves no upper-case letter |
| Text.TitleFrom | providers/zap_imoveis.py:49 | `title()` keeps the length |
| Text.TitleFromIdempotent | providers/zap_imoveis.py:49 | `title()` applied twice is `title()` applied once |
| Text.TitleFromLower | providers/zap_imoveis.py:49 | `title()` changes only letter case: lower-casing its result gives the lower-cased input |
| Text.Title | providers/zap_imoveis.py:49 | `title()`; stated by Text.TitleFrom, Text.TitleFromIdempotent and Text.TitleFromLower |
| Text.IsDigit | providers/galvao.py:15 | `isdigit()`: ASCII digits and the superscript and subscript digits |
| Text.DigitsValueAppend | providers/galvao.py:17 | the value of a concatenation of digit strings is the first value shifted by the second's length plus the second |
| Text.NatToString | providers/galvao.py:55-60 | `str()` of a natural number is a non-empty digit string without a leading zero that reads back as the number |
| Text.IntToString | providers/galvao.py:55-60 | `str()` of an integer is non-empty, a digit string for non-negatives and `-` plus the digits of the magnitude for negatives, and reads back as the number |
| Text.Truncate | providers/galvao.py:40-43 | `int()` of a float truncates toward zero |
| Normalize.AsciiFoldChar | providers/galvao.py:9 | NFKD followed by ASCII-ignore yields only ASCII characters and leaves ASCII characters as they are |
| Normalize.AsciiFold | providers/galvao.py:9 | the folded text is ASCII, and ASCII text is left unchanged |
| Normalize.LowerAscii | providers/galvao.py:10 | lower-casing ASCII text keeps it ASCII |
| Normalize.LowerNoUpper | providers/galvao.py:10 | lower-casing text with no upper-case letter leaves it unchanged |
| Normalize.NoSpaceReplace | providers/galvao.py:10 | replacing spaces in text without spaces changes nothing |
| Normalize.HyphenateShape | providers/galvao.py:10 | hyphenating trimmed lower-case ASCII text gives slug-shaped text |
| Normalize.BairroSlug | crowler.py:15-17 | `formatar_bairro` returns ASCII, lower-case, trimmed text without spaces |
| Normalize.Slug | providers/galvao.py:7-10 | `formatar_slug` maps empty text to empty text and otherwise returns ASCII, lower-case, trimmed text without spaces |
| Normalize.SlugIsBairroSlug | crowler.py:15-17 | `formatar_slug` and `formatar_bairro` agree on every input |
| Normalize.SlugIdempotent | providers/apolar.py:8-11 | a slug is its own slug |
| Normalize.KeptDigitsAndCommas | providers/galvao.py:15 | the filtered text holds only digits and commas |
| Normalize.KeepDigitsAndCommas | providers/galvao.py:15 | the `isdigit() or ','` filter, in order; stated by Normalize.KeptDigitsAndCommas |
| Normalize.KeptDigits | providers/zap_imoveis.py:16 | the filtered text holds only digits |
| Normalize.KeepDigits | providers/zap_imoveis.py:16 | the `isdigit()` filter, in order; stated by Normalize.KeptDigits |
| Normalize.CommaCountZero | providers/galvao.py:17 | the comma count is zero exactly when the text holds no comma |
| Normalize.SplitCommaCount | providers/galvao.py:17 | the text splits at a comma exactly when it holds one, and the rest then holds one comma fewer |
| Normalize.SplitAtComma | providers/galvao.py:17 | the text splits at its first comma, the part before holds no comma, and the parts rejoin to the input |
| Normalize.SplitAtFirstComma | providers/galvao.py:17 | a comma-free prefix followed by a comma splits exactly there |
| Normalize.SplitAtCommaDigits | providers/galvao.py:17 | around the first comma of a digits-and-commas text without superscripts, the integer part, and a fraction with no further comma, are decimal digit strings |
| Normalize.DecimalOf | providers/galvao.py:17 | when `float()` of the comma-to-point text succeeds, the value is non-negative |
| Normalize.PointValue | providers/galvao.py:17 | a decimal `whole.frac` value is non-negative |
| Normalize.ParseDecimal | providers/galvao.py:12-17 | the comma-decimal `limpar_numero` reads empty text as 0 and any successful read is non-negative |
| Normalize.ParseWhole | providers/zap_imoveis.py:14-18 | the digits-only `limpar_numero` reads empty text as 0 |
| Normalize.ParseDecimalFails | providers/galvao.py:12-17 | the comma-decimal `limpar_numero` fails if and only if the kept text holds a superscript digit, two or more commas, or is a lone comma |
| Normalize.ParseDecimalWhole | providers/galvao.py:14-17 | text whose kept characters are plain digits reads as their value; digit-free text reads as 0 |
| Normalize.ParseDecimalPoint | providers/galvao.py:17 | digits, one comma and digits read as the decimal `whole.frac` |
| Normalize.ParseWholeFails | providers/zap_imoveis.py:14-18 | the digits-only `limpar_numero` fails if and only if a kept digit is a superscript |
| Normalize.ParseWholeValue | providers/zap_imoveis.py:14-18 | text whose kept digits are plain digits reads as their value; digit-free text reads as 0 |
| Normalize.CleanText | crowler.py:19-20 | `limpar_texto` maps empty text to "N/A" and otherwise returns trimmed text without line breaks |
| Normalize.DecimalOfDigits | providers/galvao.py:17 | digits, a comma and digits read as the value `whole.frac` |
| Normalize.KeepWithoutComma | providers/zap_imoveis.py:16 | on comma-free text the two digit filters agree |
| Normalize.SplitWithoutComma | providers/galvao.py:17 | comma-free text does not split |
| Normalize.CleanersAgreeWithoutComma | providers/zap_imoveis.py:14-18 | on comma-free text both `limpar_numero` variants succeed together and read the same number |
| Listing.AsSeq | providers/galvao.py:133-143 | a skipped card contributes no record and a kept card exactly its own |
| Listing.NumberOf | providers/apolar.py:104 | a missing tag reads as 0 and any read number is non-negative |
| Listing.AffordableWithinBounds | providers/galvao.py:130-131 | a record built from numbers that pass the price/room re-check, with the room count truncated, is within bounds |
| Url.Utf8 | providers/zap_imoveis.py:56 | UTF-8 encodes a character as one to four bytes, with one byte exactly for ASCII |
| Url.Utf8RoundTrip | providers/zap_imoveis.py:56 | the bytes decode back to the character, the lead byte announces the length, and continuation bytes lie in 0x80-0xBF |
| Url.HexDigit | providers/zap_imoveis.py:56 | a hex digit is an unreserved character |
| Url.Percent | providers/zap_imoveis.py:56 | a percent escape is `%` followed by two unreserved characters |
| Url.Escape | providers/zap_imoveis.py:56 | escaping a character yields 3 to 12 characters starting with `%`, all `%` or unreserved |
| Url.Quote | providers/zap_imoveis.py:56 | `quote` with `/` safe, character by character; stated by Url.QuoteAppend, Url.QuoteChars and Url.QuoteIdentity |
| Url.QuotePlus | providers/apolar.py:64 | `quote_plus` with no safe character; stated by Url.QuotePlusChars and Url.NoSeparator |
| Url.UrlEncode | providers/apolar.py:64 | `urlencode` in insertion order; stated by Url.UrlEncodeSeparators |
| Url.EscapeBytes | providers/zap_imoveis.py:56 | escaping bytes yields three characters per byte, all `%` or unreserved |
| Url.QuoteAppend | providers/zap_imoveis.py:56 | `quote` distributes over concatenation |
| Url.QuoteChars | providers/zap_imoveis.py:56 | `quote` output holds only unreserved characters, `/` and `%` |
| Url.QuoteIdentity | providers/zap_imoveis.py:56 | `quote` leaves a text unchanged if and only if every character is safe, and otherwise makes it strictly longer |
| Url.QuotePlusChars | providers/apolar.py:64 | `quote_plus` output holds only unreserved characters, `+` and `%` |
| Url.NoSeparator | providers/apolar.py:64 | an encoded key or value holds no `&`, `=` or space |
| Url.UrlEncodeSeparators | providers/apolar.py:64 | the encoded query has one `=` per parameter and one `&` between consecutive parameters |
| Url.CountAppend | providers/apolar.py:64 | character counts add up over concatenation |
| Url.CountAbsent | providers/apolar.py:64 | an absent character is counted zero times |
| ApolarFormat.Pad3 | providers/apolar.py:20 | a three-digit group is three digits reading as the number |
| ApolarFormat.Pad2 | providers/apolar.py:20 | the two decimals are two digits reading as the number |
| ApolarFormat.Grouped | providers/apolar.py:20 | the grouped integer part is never empty |
| ApolarFormat.UsFormat | providers/apolar.py:20 | `f"{v:,.2f}"`; its Brazilian form is stated by ApolarFormat.SwappedFormat |
| ApolarFormat.SwapSeparators | providers/apolar.py:21 | the three chained replacements; stated by ApolarFormat.SwapExchanges and ApolarFormat.SwapCollidesOnPlaceholder |
| ApolarFormat.MoneyParam | providers/apolar.py:19-22 | the price parameter is "R$ ", the dot-grouped integer part, a comma and two decimals |
| ApolarFormat.AreaParam | providers/apolar.py:24-27 | the area parameter is the dot-grouped integer part, a comma, two decimals and " m²" |
| ApolarFormat.Exchanged | providers/apolar.py:21 | exchanging `,` and `.` keeps the length |
| ApolarFormat.SwapExchanges | providers/apolar.py:21 | on text without `X`, the three-step replacement exchanges `,` and `.` |
| ApolarFormat.SwapCollidesOnPlaceholder | providers/apolar.py:21 | an `X` already in the text becomes `.` (the placeholder is not collision-free) |
| ApolarFormat.ExchangedAppend | providers/apolar.py:21 | the exchange works character by character |
| ApolarFormat.ExchangedDigits | providers/apolar.py:21 | digits are not exchanged |
| ApolarFormat.ExchangedGrouped | providers/apolar.py:21 | exchanging a comma-grouped number gives the dot-grouped number |
| ApolarFormat.GroupedChars | providers/apolar.py:20 | a grouped number holds only digits and its separator |
| ApolarFormat.SwappedFormat | providers/apolar.py:19-22 | the formatted amount is the dot-grouped integer part, a comma and two decimals |
| ApolarFormat.KeepAppend | providers/apolar.py:15 | the digit-and-comma filter works character by character |
| ApolarFormat.KeepAsciiDigits | providers/apolar.py:15 | the filter keeps a digit string as it is |
| ApolarFormat.KeepGroupedDots | providers/apolar.py:15 | filtering a dot-grouped number leaves a non-empty digit string worth the number |
| ApolarFormat.KeepAround | providers/apolar.py:15 | around a text, a piece without digits or commas contributes nothing, and a comma and a digit string contribute themselves |
| ApolarFormat.MoneyKept | providers/apolar.py:15 | filtering the price parameter leaves the integer digits, a comma and the two decimals |
| ApolarFormat.CentsValue | providers/apolar.py:17 | integer digits and two decimals read as the amount in cents divided by 100 |
| ApolarFormat.MoneyRoundTrip | providers/apolar.py:13-22 | `limpar_numero` reads the formatted price parameter back as exactly the formatted amount |
| ApolarFormat.AreaNotReadable | providers/apolar.py:24-27 | `limpar_numero` cannot read the area parameter back, because the `²` of `m²` counts as a digit and `float()` rejects it |
| Apolar.SettingsOf | providers/apolar.py:37-45 | the city is a slug and every missing filter takes Apolar's default |
| Apolar.Cents | providers/apolar.py:20 | a value is rounded to the nearest cent |
| Apolar.LookupAppend | providers/apolar.py:59-62 | in a dictionary built in parts, the first part holding a key decides its value |
| Apolar.OptionalParam | providers/apolar.py:60-62 | an optional parameter is present exactly when its condition holds |
| Apolar.SearchPath | providers/apolar.py:56-57 | the path is base/type/city/slug, followed by `/{n}-quartos` exactly when the room floor is positive |
| Apolar.LookupParts | providers/apolar.py:59-62 | the four-part dictionary resolves a key to the first part holding it |
| Apolar.QueryParams | providers/apolar.py:59-62 | `mensal` and `country` come first; `price_max`, `area_min` and `price_condominium_included` are present exactly when their filter is set |
| Apolar.SearchUrl | providers/apolar.py:56-64 | the path, `?` and the encoded parameters; stated by Apolar.SearchPath, Apolar.QueryParams and Url.UrlEncodeSeparators |
| Apolar.PriceParamReadsBack | providers/apolar.py:60 | the price parameter reads back, with `limpar_numero`, as the ceiling within half a cent |
| Apolar.Address | providers/apolar.py:84-85 | the address text is stripped and empty when the tag is missing |
| Apolar.InPlace | providers/apolar.py:94-100 | the address slug contains both the neighbourhood slug and the city slug; Apolar.Decide keeps a card only then |
| Apolar.Decide | providers/apolar.py:84-130 | a card is kept if and only if its address slug contains both the neighbourhood and the city slug, its numbers read, and they pass the re-check; a kept card's record carries the searched neighbourhood, the address, the numbers, the link and the area as the code builds them |
| Apolar.MissingAddressSkipped | providers/apolar.py:85-96 | a card without an address is skipped |
| Apolar.MissingNumbersDefault | providers/apolar.py:104-111 | a card without price and room tags is kept, with zeros, exactly when there is no room floor |
| Apolar.Kept | providers/apolar.py:81-134 | a page yields at most one record per card |
| Apolar.KeptSound | providers/apolar.py:94-111 | every record kept from a page passed the location check and the re-check |
| Apolar.PageSound | providers/apolar.py:68-134 | every record from a search page passed the checks for that neighbourhood |
| Apolar.ResultsSound | providers/apolar.py:52-145 | every record `run` returns was searched under one of the requested neighbourhoods and passed its checks |
| Apolar.ScanPage | providers/apolar.py:81-134 | the card loop returns exactly the kept records, in card order |
| Apolar.Run | providers/apolar.py:34-145 | `run` returns the records of every neighbourhood in search order |
| Galvao.SettingsOf | providers/galvao.py:28-43 | city and type are slugs and every missing filter takes Galvão's default |
| Galvao.UrlSlug | providers/galvao.py:55-60 | the slug template; Galvao.SearchUrlShape states it holds no space and no upper-case letter |
| Galvao.SearchUrl | providers/galvao.py:55-62 | the URL starts with the base URL and a slash |
| Galvao.SearchUrlShape | providers/galvao.py:55-62 | the URL holds no space and no upper-case letter |
| Galvao.PlaceUrlText | providers/galvao.py:56 | the place part holds no space and no upper-case letter |
| Galvao.RangeUrlText | providers/galvao.py:57-59 | the range part holds no space and no upper-case letter |
| Galvao.BairroReal | providers/galvao.py:90-95 | without a label the searched neighbourhood is used, and otherwise stripped label text |
| Galvao.FeatureText | providers/galvao.py:118 | the feature text holds no upper-case letter |
| Galvao.ClassifyItemShape | providers/galvao.py:117-127 | an `m²` item sets the area, an item with no keyword changes nothing, and the numbers read are never negative |
| Galvao.ClassifyItemNumbers | providers/galvao.py:119-125 | a `quarto` item sets the rooms, and a `vaga` item the spaces, to the number read, and fails when the number does not read |
| Galvao.ClassifyItem | providers/galvao.py:117-125 | one pass of the feature loop; stated by Galvao.ClassifyItemShape and Galvao.ClassifyItemNumbers |
| Galvao.Classify | providers/galvao.py:112-127 | the feature loop over all items; stated by Galvao.ClassifyEmpty, Galvao.ClassifySane and Galvao.FoldFailureAt |
| Galvao.ClassifyEmpty | providers/galvao.py:112-114 | before any item, rooms and spaces are 0 and the area is `-` |
| Galvao.ClassifySane | providers/galvao.py:112-127 | after the feature loop, rooms and spaces are non-negative and the area is `-` or an `m²` text |
| Galvao.FoldFailureSticks | providers/galvao.py:117-127 | once a number fails to parse, the loop's failure survives any later items |
| Galvao.FoldFailureAt | providers/galvao.py:117-127 | a failure at any item makes the whole loop fail |
| Galvao.FoldStep | providers/galvao.py:117-127 | the loop over one more item is the loop so far followed by that item |
| Galvao.ReadFeature | providers/galvao.py:118-127 | the loop body computes the classification of one item |
| Galvao.ScanFeatures | providers/galvao.py:112-127 | the feature loop computes the classification fold, failing exactly when a number fails to parse |
| Galvao.Decide | providers/galvao.py:84-142 | a kept card has a link, and its record carries the label neighbourhood, the host-prefixed link, the price and the classified features |
| Galvao.DecideKeeps | providers/galvao.py:84-131 | a card is kept if and only if it has a link, the neighbourhood check passes, its numbers read and they pass the re-check |
| Galvao.DecideSound | providers/galvao.py:98-131 | a kept card passed the neighbourhood check and the re-check and links into the site |
| Galvao.MissingLabelPasses | providers/galvao.py:94-98 | a card without a label is checked against the searched neighbourhood itself and passes |
| Galvao.MissingLinkSkipped | providers/galvao.py:85 | a card without a link is skipped |
| Galvao.DecideCard | providers/galvao.py:83-147 | the card body computes the decision |
| Galvao.Kept | providers/galvao.py:82-147 | a page yields at most one record per card |
| Galvao.KeptSound | providers/galvao.py:82-147 | every kept record is sound for the searched neighbourhood |
| Galvao.PageSound | providers/galvao.py:67-152 | every record from a search page is sound for that neighbourhood |
| Galvao.SourceOf | providers/galvao.py:50-152 | each returned record is sound for a requested neighbourhood that the lemma names |
| Galvao.ResultsSound | providers/galvao.py:50-158 | every record `run` returns is sound for one of the requested neighbourhoods |
| Galvao.ScanPage | providers/galvao.py:82-147 | the card loop returns exactly the kept records, in card order |
| Galvao.Run | providers/galvao.py:24-158 | `run` returns the records of every neighbourhood in search order |
| Zap.SettingsOf | providers/zap_imoveis.py:31-33 | missing filters take Zap's defaults and the neighbourhoods are taken as given |
| Zap.BairroTitle | providers/zap_imoveis.py:49 | `title()` with "Da " and "De " lower-cased again; stated by Zap.BairroTitleCaseOnly and Zap.BairroTitleConnectives |
| Zap.BairroTitleCaseOnly | providers/zap_imoveis.py:49 | the title-cased name differs from the name only in letter case |
| Zap.BairroTitleConnectives | providers/zap_imoveis.py:49 | the title-cased name holds no "Da " and no "De " |
| Zap.Onde | providers/zap_imoveis.py:54-55 | the `onde` template; Zap.OndeQuoted states its quoted form |
| Zap.Query | providers/zap_imoveis.py:55-66 | the query string, with the quoted `onde` value; Zap.OndeQuoted states it cannot break the query |
| Zap.SearchUrl | providers/zap_imoveis.py:55-68 | the search URL for two-bedroom apartments; its `onde` part is stated by Zap.OndeQuoted |
| Zap.OndeQuoted | providers/zap_imoveis.py:55-56 | the quoted `onde` value holds no `&`, `=`, `#`, `?` or space |
| Zap.AbsoluteLink | providers/zap_imoveis.py:96-98 | the link starts with `http`; a link already starting so is kept, any other is prefixed with the host |
| Zap.AbsoluteLinkIdempotent | providers/zap_imoveis.py:97-98 | making a link absolute twice is making it absolute once |
| Zap.WholeOf | providers/zap_imoveis.py:104 | a missing tag reads as the default |
| Zap.Decide | providers/zap_imoveis.py:93-120 | an item is kept if and only if it has an anchor and its numbers read; the record carries the title-cased name, the numbers (0 and 2 for missing tags), the area as the stripped fragments of its tag joined (`-` without one) and the absolute link |
| Zap.MissingBedroomsDefault | providers/zap_imoveis.py:110-111 | an item without a bedroom tag is kept with two rooms |
| Zap.KeepDigitsAppend | providers/zap_imoveis.py:16 | the digit filter works character by character |
| Zap.KeepDigitsOfDigits | providers/zap_imoveis.py:16 | the digit filter keeps a digit string as it is |
| Zap.KeepDigitsAround | providers/zap_imoveis.py:16 | around a text, pieces without digits contribute nothing and a digit string contributes itself |
| Zap.KeepDigitsMoneyMarks | providers/zap_imoveis.py:16 | the currency sign and the decimal comma hold no digit |
| Zap.MoneyDigitsKept | providers/zap_imoveis.py:16 | filtering a formatted amount leaves its integer digits followed by its two decimals |
| Zap.CentsReadAsWhole | providers/zap_imoveis.py:14-18 | Zap's `limpar_numero` reads a price written with decimals as the amount in cents |
| Zap.Kept | providers/zap_imoveis.py:92-123 | a page yields at most one record per item |
| Zap.KeptSound | providers/zap_imoveis.py:92-123 | every kept record names Zap, the searched title and an absolute link, with non-negative numbers |
| Zap.KeptCount | providers/zap_imoveis.py:92-123 | without a price re-check, every anchored item whose numbers read is kept |
| Zap.ResultsSound | providers/zap_imoveis.py:45-135 | every record `run` returns is sound and stored under the title of a requested neighbourhood |
| Zap.TitlesOf | providers/zap_imoveis.py:49 | the title of every requested neighbourhood is in the set |
| Zap.ScanPage | providers/zap_imoveis.py:92-123 | the item loop returns exactly the kept records, in order |
| Zap.Run | providers/zap_imoveis.py:25-135 | `run` returns the records of every neighbourhood in search order |
| Crowler.PageUrl | crowler.py:32-33 | the page URL is the fixed Apolar prefix followed by a slug |
| Crowler.PriceField | crowler.py:62 | a missing price tag gives "0", an empty one "N/A", and otherwise trimmed text without line breaks |
| Crowler.CleanTextOfTrimmed | crowler.py:19-20 | `limpar_texto` leaves trimmed single-line text unchanged |
| Crowler.DeleteCurrency | crowler.py:62 | deleting "R$" from "R$ " plus an amount without `R` leaves the space and the amount |
| Crowler.PriceFieldOfAmount | crowler.py:62 | the price field of "R$ " plus a clean amount is the amount |
| Crowler.NotApplicableClean | crowler.py:20 | the "N/A" placeholder has no line break and no surrounding whitespace |
| Crowler.Record | crowler.py:57-72 | a card without an anchor gets "S/ Link" and one without an address the searched neighbourhood; an address or price present becomes clean single-line text, and a missing price "0" |
| Crowler.MapCards | crowler.py:55-74 | one record per card |
| Crowler.MapCardsAt | crowler.py:55-74 | the record at each position is built from the card at that position |
| Crowler.MapCardsStep | crowler.py:55-74 | the loop over one more card appends that card's record |
| Crowler.ResultsCount | crowler.py:31-76 | the scraper returns exactly as many records as the pages that loaded hold cards |
| Crowler.PageWellFormed | crowler.py:55-72 | every record of a page has a requested or clean neighbourhood and a clean price |
| Crowler.ResultsWellFormed | crowler.py:22-83 | every record of the run is well formed |
| Crowler.PlainSlug | crowler.py:15-17 | the slug of a plain lower-case name only hyphenates it |
| Crowler.HyphenateInjective | crowler.py:17 | hyphenating distinct texts without hyphens gives distinct texts |
| Crowler.SlugInjective | crowler.py:15-17 | distinct plain names have distinct slugs |
| Crowler.PageUrlInjective | crowler.py:32-33 | distinct plain names have distinct page URLs |
| Crowler.TargetsPlain | crowler.py:7-12 | every target neighbourhood is a plain lower-case name |
| Crowler.TargetsDistinct | crowler.py:7-12 | the target neighbourhoods are distinct |
| Crowler.TargetPagesDistinct | crowler.py:7-33 | no page is visited twice |
| Crowler.ResultsStep | crowler.py:31-76 | the run over one more neighbourhood appends that page's records |
| Crowler.ScanPage | crowler.py:55-74 | the card loop builds one record per card, in order |
| Crowler.ScrapeAll | crowler.py:31-79 | the neighbourhood loop concatenates the records of every page that loaded |
| Crowler.Scrape | crowler.py:22-83 | `raspar_com_navegador` returns the records of the fixed neighbourhood list |
| Ingest.ToItem | main.py:51-61 | the stored item is keyed by the link under the fixed sort key, copies the record's fields and carries the batch time |
| Ingest.Stored | main.py:49-71 | the table after the batch; stated by Ingest.StoredKeepsExisting, Ingest.StoredKeys and Ingest.FirstOccurrenceStored |
| Ingest.Inserted | main.py:63-66 | the count of new items; stated by Ingest.InsertedIsGrowth and Ingest.CountsNewLinks |
| Ingest.StoredKeepsExisting | main.py:63-65 | an item already stored is never overwritten |
| Ingest.InsertedIsGrowth | main.py:63-66 | the count of new items is exactly how much the table grew |
| Ingest.LinksStep | main.py:49-71 | the links of one more record add that record's link unless its put fails |
| Ingest.StoredKeys | main.py:49-71 | after saving, the table's keys are the old keys plus the links of every record whose put did not fail |
| Ingest.CountsNewLinks | main.py:63-66 | without failures, the count is the number of distinct links not stored before |
| Ingest.AllPresentNoop | main.py:63-69 | when every link is already stored, nothing changes and the count is zero |
| Ingest.SecondRunInsertsNothing | main.py:63-69 | saving the same records again changes nothing and counts zero |
| Ingest.FirstOccurrenceStored | main.py:49-69 | a new link's first successful record is the one stored |
| Ingest.Table.constructor | main.py:15 | a table starts with the given items |
| Ingest.Table.PutIfAbsent | main.py:63-65 | the conditional put inserts exactly when the key is absent, and otherwise leaves the table unchanged |
| Ingest.SaveStep | main.py:49-71 | saving one more record inserts it exactly when its put succeeds and its link is new |
| Ingest.SalvarNoDynamo | main.py:45-72 | `salvar_no_dynamo` leaves the table as the fold of conditional puts and returns the count of inserted items |
| Ingest.CollectedAppend | main.py:86-89 | the collected records of two provider lists concatenate |
| Ingest.FailureContributesNothing | main.py:87-91 | a provider that raises contributes no record and does not disturb the others |
| Ingest.Collect | main.py:86-91 | the provider loop concatenates the records of the providers that ran |
| Ingest.RunAndSave | main.py:76-104 | `main` saves the collected records only when there are some, and reports their number |
| Report.Cutoff | cron_report.py:23 | the cut-off lies eight hours before now |
| Report.InWindow | cron_report.py:27-30 | every selected item is stored and updated at or after the cut-off |
| Report.InWindowComplete | cron_report.py:27-30 | an item is selected if and only if it is stored and updated at or after the cut-off |
| Report.IdsStep | cron_report.py:38 | the ids of one more row add that row's id |
| Report.DropDuplicates | cron_report.py:38 | dropping duplicates never adds rows |
| Report.DropDuplicatesIds | cron_report.py:38 | dropping duplicates keeps every id |
| Report.DropDuplicatesUnique | cron_report.py:38 | after dropping duplicates, no id occurs twice |
| Report.IsFirstOfPrefix | cron_report.py:38 | a row is the first of its id exactly when its id does not occur earlier |
| Report.FirstsOfPrefix | cron_report.py:38 | which rows come first does not depend on the rows after them |
| Report.DropDuplicatesKeepsFirsts | cron_report.py:38 | dropping duplicates keeps exactly the first row of each id, in order |
| Report.BuscarDados | cron_report.py:19-43 | `buscar_dados` returns nothing exactly when the window is empty, and otherwise the non-empty de-duplicated window |
| Report.ReportedRows | cron_report.py:32-38 | the reported rows hold every id of the window once, the first row of each |
| Report.Subject | cron_report.py:56 | the subject starts with the fixed prefix |
| Report.SubjectInjective | cron_report.py:56 | distinct counts give distinct subjects |
| Report.Paragraph | cron_report.py:66 | the body paragraph opens with the greeting and the bold count |
| Report.DigitsEndAt | cron_report.py:66 | two digit strings each followed by a non-digit, at the same place of equal texts, are equal |
| Report.DigitAfterShorter | cron_report.py:66 | when one digit string is a strict prefix of another inside equal texts, the shorter is followed by a digit |
| Report.TwoRenderings | cron_report.py:66 | fixed text around two decimal numbers determines both numbers |
| Report.ParagraphInjective | cron_report.py:66 | the paragraph determines both the count and the hours it announces |
| Report.Body | cron_report.py:62-73 | the body announces the count over the query's own look-back; Report.ReportedWithinAnnounced relates it to the rows |
| Report.CronReport | cron_report.py:97-102 | a mail is composed exactly when the window is non-empty, with the reported rows and a subject counting them |
| Report.CronReportAsWritten | cron_report.py:50-102 | the mail as written has the same rows and subject as the corrected one |
| Report.FirstsWithin | cron_report.py:38 | every first row is a row of the input |
| Report.ReportedWithinAnnounced | cron_report.py:23 | the corrected body announces eight hours, and every reported row is at most eight hours old |
| Report.BodyAsWrittenUnderstates | cron_report.py:66 | a row eight hours old is mailed under a body announcing the last two hours |

## Left out

- The browser (Playwright) and the HTML parser (BeautifulSoup) are not part of this model. A page visit is the parameter `browse`. A card is a datatype whose optional fields stand for the tags `find` returns. `.text` of a tag is the field's text, given as is. For Zap's area tag, read with `get_text(strip=True)`, the field holds the tag's text fragments, and Text.StrippedText strips each one and joins them.
- `print`, `time.sleep` and the random delays between neighbourhoods have no effect on the results and are left out.
- Exceptions inside a card other than a failed `float()` and a missing `href` are not modelled. Such exceptions would skip the card.
- Normalize.AsciiFoldChar: NFKD decomposition with ASCII-ignore is modelled exactly for U+0000-U+00FF only. Every character above U+00FF is dropped, although NFKD keeps the base letter of some of them.
- Text.ToLower: case mapping covers ASCII and the Latin-1 letters À-Þ / à-þ. `ß`, `ÿ`, `µ` and all letters beyond Latin-1 are treated as uncased.
- Text.IsDigit: `isdigit()` is modelled for ASCII digits and the superscript/subscript digits, which `float()` rejects. Decimal digits of other scripts are left out.
- Normalize.ParseDecimal: `float()` yields an exact real, not a binary float. Rounding of the parsed value is not modelled.
- Apolar.Cents: the `:,.2f` formatting rounds the exact real half-up to the cent. It does not round the binary float.
- Text.Truncate: `int()` of a float is modelled on exact reals.
- Ingest.ToItem: `Decimal(str(preco))` is the real itself, and `updated_at` is an integer count of seconds rather than an ISO string. One `now` serves the whole batch, where the source reads the clock per record.
- Ingest.SalvarNoDynamo: a failing `put_item` is given as a set of batch positions. The error message it prints is left out.
- Ingest.RunAndSave: the provider objects are given as the outcomes of their `run` (`None` when `run` raises). `main.py` enables only Zap; the model accepts any list of providers.
- Report.InWindow: comparing ISO timestamps as strings is comparison of the integers. `table.scan` returns all items; its one-megabyte pagination is left out.
- The conversion of `Decimal` columns to `float` in `buscar_dados` is left out, since the model's numbers are reals throughout.
- Of `enviar_email`, only the subject, the body paragraph (with its bold count) and the rows are modelled. The rest of the HTML around the paragraph is left out. The Excel attachment, the MIME structure, the sender, the recipients, sending through SES and the file clean-up are left out.
- In `crowler.py`, the pandas Excel export at module level is left out.
- `test.py` is not part of this model.
- In `formatar_area_url`, the `area_min` parameter is modelled; ApolarFormat.AreaNotReadable shows it cannot be read back.

Behaviour of the code a reader may not expect; the model follows the code:

- Slugs replace each single space by a hyphen and keep every other character, commas included. Runs of whitespace are not collapsed.
- `limpar_numero` does not read malformed numbers as 0. `float()` raises on text with two commas or with superscript digits, which skips the card. This is `None` in the model.
- Only Apolar checks both the neighbourhood and the city in the address. Galvão checks only the neighbourhood, and Zap checks nothing.
- Zap applies no price or room re-check after reading a card.
- A missing link is not an error everywhere. Apolar stores an empty link, Zap the bare host, and `crowler.py` the text "S/ Link"; only Galvão skips the card.

## Findings

| source | as written | input that shows it | evidently intended | confidence | as-written member | corrected member |
|---|---|---|---|---|---|---|
| cron_report.py:66 | the digest body says the listings are from "the last 2 hours", while the query at cron_report.py:23 selects the last 8 hours | one stored item updated exactly eight hours before the report runs | the body announces the same window the query uses, eight hours | medium, not executed | Report.BodyAsWrittenUnderstates | Report.ReportedWithinAnnounced |
