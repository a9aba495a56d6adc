# Coleta IPMA forecast core, modelled in Dafny

Coleta IPMA scrapes the weekly forecast for a Portuguese district and location
from the IPMA forecast page. It caches the list in Redis for a day and serves
it, optionally filtered by date. This project models the two pieces of that
code that make decisions, and proves properties about them:

- `buscar_previsao` (coleta.py) is module `Coleta`. It covers the anchor date
  taken from the last-update text, the per-column loop that appends one entry
  per weekly column, the handling of a failing column (it becomes an `erro`
  entry), the `"N/A"` fallback for the UV index, and how timeouts become the
  HTTP errors 404 and 504.
- `forecast_route` (main.py) is module `Forecast`. It covers the cache key, the
  cache read and the bypass, the call to the scraper, the write-back with
  expiry 86400, the validation of the date and the filter, and how failures
  become `{erro: ...}` replies.
- Module `Dates` models Python's `datetime.strptime(s, "%Y-%m-%d")` and
  `strftime("%Y-%m-%d")`. Both files use them.
- Module `Text` models `str.split`, `str.strip` and `int()`, as far as the date
  text needs them.
- Module `Wrappers` holds Option and Result.

The browser is not modelled. What a browser session yields is an input value,
`Coleta.PageOutcome`:

- `SelectionTimeout`: a timeout in the district/location block.
- `LoadTimeout`: any other timeout outside the column loop (a timeout while a column is read is that column's browser error).
- `LoadFailure`: any other browser error.
- `Loaded`: the last-update text and the weekly columns.

Each column (`Coleta.Column`) is the map from CSS selector to the element it
finds, plus an optional browser error raised while it is read.

Redis is modelled by `Forecast.ForecastService`. That class holds the store as
a `map` from key to the stored list and its expiry. A ghost counter records how
often the scraper ran. Whether Redis answers at all is a parameter
(`StoreLink`).

`Serve` is a pure reference definition of one request. `ForecastRoute` is
proved equal to it, and the lemmas about `Serve` state the route's properties.

Some behaviour of the code is easy to misread. The model keeps it as written:

- A Redis failure is not swallowed. It reaches the generic handler and gives a
  500.
- A bypassed request (`use_cache=false`) still writes its result to the store.
- Error texts are the Portuguese ones of the code.
- The day number is the second comma-separated field of the date text
  (`split(",")[1]`). That field ends at the next comma, if there is one.
- The `data` filter is validated with strptime. strptime accepts unpadded
  fields such as `2024-3-5` and a day written as a space and a digit
  (`2024-03- 5`). Such a filter passes validation but matches nothing
  (`UnpaddedFilterMatchesNothing`).
- One anchor month is used for the whole week. A week that runs into the next
  month dates those days in the wrong month (`NextMonthDayTakesAnchorMonth`).
  The model keeps this behaviour.
- The cache key is not injective when a district contains ':'
  (`CacheKeyCollision`).

## Model

| member | source | states |
|---|---|---|
| `Text.Before` | coleta.py:40 | `split(" ")[0]`: a prefix of the text with no separator in it, ending at the first separator or at the end |
| `Text.After` | coleta.py:54 | the text after the first separator: absent exactly when there is none, else the text is the prefix, the separator and the rest |
| `Text.SecondField` | coleta.py:54 | `split(",")[1]`: absent (IndexError) exactly when there is no comma; else the comma-free field after the first comma |
| `Text.Strip` | coleta.py:54 | `strip()`: a contiguous piece of the input that neither starts nor ends with whitespace, and everything of the input around it is whitespace |
| `Text.TrimStart` | coleta.py:54 | a suffix of the input that does not start with whitespace; only whitespace was removed |
| `Text.TrimEnd` | coleta.py:54 | a prefix of the input that does not end with whitespace; only whitespace was removed |
| `Text.ParseInt` | coleta.py:54 | `int()` accepts exactly an optionally signed numeral (digits, single underscores between digits), of any length (see Left out); its value is the numeral's value, negated after '-' |
| `Text.NumeralValueConcat` | coleta.py:54 | a numeral's value is read left to right: the value of a concatenation is the first part shifted by the second part's digit count plus the second part |
| `Text.LeadingZeroIgnored` | coleta.py:54 | a leading zero changes neither acceptance nor value (`int("05") == 5`) |
| `Text.UnderscoreIgnored` | coleta.py:54 | an underscore between two numerals changes neither acceptance nor value (`int("1_5") == 15`) |
| `Text.SignedDecimal` | coleta.py:54 | `int("-" + str(n)) == -n` and `int("+" + str(n)) == n` |
| `Text.ParseIntExamples` | coleta.py:54 | `"05"`, `"1_5"`, `"-3"` are read as 5, 15, -3; `"1__5"`, `"_5"` and `""` are rejected |
| `Text.ParseIntOfDecimal` | coleta.py:54 | `int()` reads back every decimal rendering of a natural number, of any length (see Left out) |
| `Dates.DaysInMonth` | coleta.py:60 | every month has 28 to 31 days; February has 29 exactly in Gregorian leap years |
| `Dates.ParseYmd` | main.py:91 | strptime `%Y-%m-%d`: accepts only dates that exist (years 1-9999, real day of the month), with four year digits and a '-' at position 4 |
| `Dates.FieldsAcceptEveryNumber` | main.py:91 | every month 1-12 and day 1-31 is accepted zero-padded, unpadded below 10, and a day below 10 also after a space |
| `Dates.ParseYmdComplete` | main.py:91 | every text made of a year field, '-', a month field, '-' and a day field is accepted when its date exists, and read as that date |
| `Dates.ParseYmdSound` | main.py:91 | every accepted text is made of such fields, and they give the parsed date |
| `Dates.ParseYmdExactly` | main.py:91 | strptime accepts a text as date d if and only if d exists and the text is the pattern's fields spelling d |
| `Dates.FormatYmd` | coleta.py:60 | strftime writes the zero-padded shape `DDDD-DD-DD` |
| `Dates.FormatThenParse` | coleta.py:59-63 | strptime reads back every date strftime writes |
| `Dates.ParseMatchesFormatIffCanonical` | main.py:91-92 | an accepted string equals the strftime text of its date if and only if it is zero-padded `DDDD-DD-DD` |
| `Dates.UnpaddedDateAccepted` | main.py:91 | `2024-3-5` passes validation as 5 March 2024, whose strftime text is `2024-03-05` |
| `Dates.LeapDayExamples` | main.py:91 | 29 February is accepted in 2024 and 2000 and rejected in 2023 and 1900 |
| `Coleta.FirstToken` | coleta.py:40 | `split(" ")[0]` of the last-update text: the prefix up to the first space |
| `Coleta.DateText` | coleta.py:51-52 | the `.date` element's text, absent exactly when the column has no such element |
| `Coleta.FirstMissing` | coleta.py:65-87 | no fault exactly when every selector the record reads is present; else the AttributeError of the first missing one in evaluation order |
| `Coleta.DayNumber` | coleta.py:51-57 | no day number exactly when the date text is missing or empty; a non-empty text without a comma raises IndexError; otherwise the stripped second field is read by `int()`, giving its value or a ValueError |
| `Coleta.DayNumberOfRenderedText` | coleta.py:51-57 | a date text such as `Sáb, 15` yields the day number it shows |
| `Coleta.DayDate` | coleta.py:59-63 | no date for a missing or zero day number; an error exactly for a nonzero day the anchor month lacks; a date for every day the month has, padded, parsing to the anchor's year and month and that day |
| `Coleta.NextMonthDayTakesAnchorMonth` | coleta.py:59-63 | day 1 shown in a week anchored on 30 March 2024 is dated `2024-03-01` |
| `Coleta.UvIndex` | coleta.py:88-94 | `iuv` is the `.iuvImg` title when that element exists, otherwise exactly `"N/A"` |
| `Coleta.ExtractDay` | coleta.py:50-95 | the `try` body for one column: a browser error is raised first; a success is a day record (its full behaviour is stated by `ExtractDayOutcome`) |
| `Coleta.ExtractDayOutcome` | coleta.py:50-95 | succeeds exactly when there is no browser error, the day number and date are computed and no needed element is missing; the record then carries that date and the UV value; a browser error or a bad date text is the fault raised |
| `Coleta.ProcessDay` | coleta.py:50-102 | an error entry's text starts with `"Falha ao processar um dia: "`; a browser error gives exactly that prefix and its text |
| `Coleta.ProcessDayRecord` | coleta.py:50-97 | a day record has every needed element, every field from its element (title, src, text, UV fallback), and either no date (day number missing or 0) or the padded date of the anchor's year and month with the day number |
| `Coleta.GoodColumnGivesDay` | coleta.py:50-97 | a column with no browser error, a day number the anchor month has and every needed element gives exactly the day record with the padded anchor-month date |
| `Coleta.ZeroDayGivesNoDate` | coleta.py:53-63 | a day number of 0 is falsy: with every element present the entry is a day record with no date, not an error |
| `Coleta.NoDateTextGivesNoDate` | coleta.py:51-63 | missing or empty date text gives a day record with no date, not an error |
| `Coleta.DayOutOfMonthFails` | coleta.py:59-102 | a day number out of range for the anchor month makes the entry an error entry |
| `Coleta.BadDateTextFails` | coleta.py:50-102 | a date text without a comma or with a non-integer day makes the entry an error entry whatever else the column holds |
| `Coleta.MissingElementFails` | coleta.py:65-102 | a missing element that the record reads makes the entry an error entry |
| `Coleta.WeekEntries` | coleta.py:46-104 | the list the loop builds: one entry per column, each `ProcessDay` of that column (pointwise form in `Scrape`'s contract) |
| `Coleta.Scrape` | coleta.py:17-112 | a selection timeout gives 404 naming both inputs; any other timeout gives 504; a bad last-update token aborts with a non-HTTP error; otherwise one entry per column, in column order |
| `Coleta.BuscarPrevisao` | coleta.py:9-112 | computes exactly `Scrape` |
| `Coleta.ProcessColumns` | coleta.py:47-104 | the loop appends exactly one entry per column, in column order, each the column's own outcome |
| `Coleta.NotFoundNamesBoth` | coleta.py:30-34 | the 404 detail contains both the district and the location |
| `Coleta.ColumnsIsolated` | coleta.py:46-102 | replacing one column changes no other entry and not the length of the list |
| `Coleta.DatedEntriesCanonical` | coleta.py:59-63 | every date the scraper writes is zero-padded `DDDD-DD-DD` |
| `Forecast.CacheKey` | main.py:73 | the key is the district, then ':', then the location |
| `Forecast.CacheKeyInjective` | main.py:73 | for districts without ':' the key determines the district and the location |
| `Forecast.CacheKeyCollision` | main.py:73 | with ':' in the district two different pairs share a key |
| `Forecast.FilterByDate` | main.py:92 | only entries whose `data` equals the filter are kept, every one of them with its multiplicity, in their original order |
| `Forecast.NoMatchFiltersToEmpty` | main.py:92 | a list with no matching entry filters to the empty list |
| `Forecast.FilterKeepsTheMatch` | main.py:92 | one matching entry among non-matching ones filters to exactly that entry |
| `Forecast.Respond` | main.py:87-104 | 400 with the fixed message exactly for a present, invalid date; otherwise the payload echoes the names, `data_filtrada` is the date or None, and the list is filtered only when a date is present |
| `Forecast.FailureReply` | main.py:106-113 | an HTTPException keeps its status and detail; any other error is a 500 whose text is `"Erro ao buscar previsão: "` followed by the message |
| `Forecast.Serve` | main.py:72-113 | the scraper runs exactly when the request bypasses the store, or the store is reachable but lacks the key; the store changes only by writing the full scraped list under the key with expiry 86400; after a scrape with Redis reachable, the reply is the scraped list, filtered by the date when one is given; a failed scrape's reply is its failure; a success echoes the names |
| `Forecast.BypassIgnoresStore` | main.py:76-81 | with `use_cache` false the scraper runs, and the reply does not depend on what is stored |
| `Forecast.HitSkipsScraper` | main.py:76-85 | a stored value is served as is: no scrape, store unchanged |
| `Forecast.WriteBackUnfiltered` | main.py:79-104 | when no stored value was used, a successful scrape stores the full unfiltered list under the key with expiry 86400, overwriting on bypass, and the reply is that list filtered by the date |
| `Forecast.FailedScrapeLeavesStore` | main.py:79-85 | a failing scrape leaves the store unchanged and becomes the reply |
| `Forecast.FailureStatuses` | main.py:106-113 | selection timeout is 404, other timeouts 504, other errors 500 with the prefix |
| `Forecast.BadDateAfterWriteBack` | main.py:84-97 | an invalid date gives 400 after the scrape and the write-back have happened |
| `Forecast.StoreOutageIsServerError` | main.py:76-113 | when Redis does not answer, the reply is a 500 and the store is unchanged; the scraper ran only on bypass |
| `Forecast.SecondRequestServedFromStore` | main.py:76-85 | a second identical cached request does not scrape and gets the same reply |
| `Forecast.UnpaddedFilterMatchesNothing` | main.py:88-92 | a valid but unpadded date filter matches no scraped entry |
| `Forecast.ForecastService.constructor` | main.py:12 | the service starts with the given store and no scraper runs |
| `Forecast.ForecastService.ForecastRoute` | main.py:62-113 | reply and new store are those of `Serve`; the counter grows by one exactly when the scraper ran, always on bypass, never on a cache hit |

## Left out

- Playwright itself is not modelled: launch, navigation, selector waits, `query_selector`, `text_content`, async/await and closing the browser. Page content and browser errors are inputs instead.
- A browser error inside a column (`Column.fault`) is taken to happen before any other step of that column. Which exception comes first only changes the message text.
- Coleta.FaultText and Coleta.AnchorFaultText: the exception texts follow CPython's wording but are not guaranteed to match all Python versions (for example, an invalid last-update date such as `2024-02-30`). Only the prefixes the source writes are promised.
- Redis transport, real TTL expiry and clocks are not modelled. The expiry is stored as a number beside the list, and an entry never expires in the model.
- JSON `dumps`/`loads` is not modelled. The store keeps the list itself, which JSON round-trips unchanged.
- The HTML template routes and the `get_locations`/`get_distritos` proxies are left out. They are I/O with no logic.
- The REST "aggregate reader" is not part of this model. It is not in coleta.py or main.py.
- Text.IsSpace, Text.IsDigit: only ASCII digits count as digits and only Python's `str.isspace` whitespace counts as whitespace. Python's regex `\d` and `int()` also accept other Unicode decimal digits.
- Dates.FormatYmd always pads the year to four digits. Some platforms' strftime do not pad years below 1000. Such years only come from an absurd last-update text.
- Text.ParseInt, Text.ParseIntOfDecimal: the limit on numeral length that CPython 3.11 and later put on `int()` (by default, more than 4300 digits, leading zeros included, raises ValueError) is not modelled. The model reads numerals of any length, so a date text whose day field has more than 4300 digits gives a day record here, where such a Python gives an `erro` entry. The Python version the service runs on is not fixed by the repository.
- Forecast.StoreLink: Redis is either reachable for the whole request or not at all. A read that answers followed by a write that fails cannot be expressed; in the source that is a scrape followed by a 500 with the store unchanged.
- Concurrent requests for the same key are not modelled. Each call of `ForecastRoute` is one whole request.
