/**
 * `buscar_previsao` in coleta.py: reads the weekly forecast panel of the
 * IPMA page for one district and location and assembles one entry per day.
 *
 * The browser is abstracted away: what the page yields is given as a
 * `PageOutcome`, and each weekly column as the elements its CSS selectors
 * find. What is modelled is the decision logic: the anchor date, the
 * per-column extraction with its isolation of failures, the UV fallback and
 * the translation of timeouts into HTTP errors.
 */
module Coleta {
  import opened Wrappers
  import opened Text
  import opened Dates

  /** A DOM element: its text content and its attributes. */
  datatype Element = Element(text: string, attributes: map<string, string>)

  /** `element.get_attribute(name)`: `None` when the attribute is absent. */
  function Attribute(e: Element, name: string): Option<string> {
    if name in e.attributes then Some(e.attributes[name]) else None
  }

  /**
   * One `#weekly .weekly-column`: the elements its sub-selectors find, and the
   * browser error (a timeout, a detached element) raised while reading it, if any.
   */
  datatype Column = Column(elements: map<string, Element>, fault: Option<string>)

  /** How far the browser session got before the weekly columns were read. */
  datatype PageOutcome =
    | SelectionTimeout                                   // timeout waiting for or selecting #district / #locations
    | LoadTimeout                                        // any other timeout: navigation, the weekly panel, the last-update text
    | LoadFailure(message: string)                       // any other browser error outside the column loop
    | Loaded(lastUpdate: string, columns: seq<Column>)   // the `#last_update > i` text and the columns

  /** One element of the returned list: a day record, or a dict holding only `erro`. */
  datatype Entry =
    | Day(data: Option<string>, tempo: Option<string>, tempMin: string, tempMax: string,
          vento: Option<string>, direcaoVento: string, imagem: Option<string>,
          precipitacao: string, iuv: Option<string>)
    | Failed(erro: string)

  /** Why the extraction of one column raised. */
  datatype DayFault =
    | BrowserFault(message: string)             // an error raised by the browser itself
    | NoSecondField                             // `split(",")[1]` on text without a comma: IndexError
    | NotAnInteger(text: string)                // `int(...)`: ValueError
    | DayOutOfRange(day: int)                   // `datetime(ano, mes, dia)`: ValueError
    | MissingElement(selector: string, call: string)  // a method called on `None`: AttributeError

  /** What `buscar_previsao` returns or raises. */
  datatype FetchOutcome =
    | Forecast(days: seq<Entry>)
    | HttpError(status: int, detail: string)    // an HTTPException
    | Crash(message: string)                    // any other exception, propagated as is

  const DayFailurePrefix := "Falha ao processar um dia: "
  const TimeoutDetail := "Tempo limite excedido ao buscar dados de previsão."
  const UvFallback := "N/A"

  function NotFoundDetail(distrito: string, location: string): string {
    "Distrito '" + distrito + "' ou localidade '" + location + "' não encontrados."
  }

  /** The text of the exception, close to what CPython prints. */
  function FaultText(f: DayFault): string {
    match f
    case BrowserFault(m) => m
    case NoSecondField => "list index out of range"
    case NotAnInteger(t) => "invalid literal for int() with base 10: '" + t + "'"
    case DayOutOfRange(_) => "day is out of range for month"
    case MissingElement(_, call) => "'NoneType' object has no attribute '" + call + "'"
  }

  /** The text of the ValueError strptime raises on a bad last-update token. */
  function AnchorFaultText(token: string): string {
    "time data '" + token + "' does not match format '%Y-%m-%d'"
  }

  /** The first space-separated token of the last-update text: `split(" ")[0]`. */
  function FirstToken(lastUpdate: string): (r: string)
    ensures r <= lastUpdate && ' ' !in r
    ensures |r| < |lastUpdate| ==> lastUpdate[|r|] == ' '
  {
    Before(lastUpdate, ' ')
  }

  /** A selector the day record reads and the method it calls on what it finds. */
  datatype Probe = Probe(selector: string, call: string)

  /** The selectors of the day record, in the order the dict literal evaluates them. */
  const RecordProbes: seq<Probe> := [
    Probe(".weatherImg", "get_attribute"), Probe(".tempMin", "text_content"),
    Probe(".tempMax", "text_content"), Probe(".windImg", "get_attribute"),
    Probe(".windDir", "text_content"), Probe(".weatherImg", "get_attribute"),
    Probe(".precProb", "text_content")]

  /** The column has every element the day record reads. */
  predicate HasRecordElements(col: Column) {
    var e := col.elements;
    ".weatherImg" in e && ".tempMin" in e && ".tempMax" in e && ".windImg" in e && ".windDir" in e && ".precProb" in e
  }

  lemma RecordElementsAreProbes(col: Column)
    ensures HasRecordElements(col) <==> forall p :: p in RecordProbes ==> p.selector in col.elements
  {
    if !HasRecordElements(col) {
      var e := col.elements;
      if ".weatherImg" !in e { assert RecordProbes[0] in RecordProbes; }
      else if ".tempMin" !in e { assert RecordProbes[1] in RecordProbes; }
      else if ".tempMax" !in e { assert RecordProbes[2] in RecordProbes; }
      else if ".windImg" !in e { assert RecordProbes[3] in RecordProbes; }
      else if ".windDir" !in e { assert RecordProbes[4] in RecordProbes; }
      else { assert RecordProbes[6] in RecordProbes; }
    }
  }

  /** The AttributeError of the first probe whose selector finds nothing. */
  function FirstMissing(probes: seq<Probe>, col: Column): (r: Option<DayFault>)
    ensures r.None? <==> forall p :: p in probes ==> p.selector in col.elements
    ensures r.Some? ==> exists k :: (0 <= k < |probes| && probes[k].selector !in col.elements
      && (forall j :: 0 <= j < k ==> probes[j].selector in col.elements)
      && r.value == MissingElement(probes[k].selector, probes[k].call))
  {
    if probes == [] then None
    else if probes[0].selector !in col.elements then Some(MissingElement(probes[0].selector, probes[0].call))
    else
      var rest := FirstMissing(probes[1..], col);
      if rest.Some? then
        ghost var k :| 0 <= k < |probes| - 1 && probes[1..][k].selector !in col.elements
          && (forall j :: 0 <= j < k ==> probes[1..][j].selector in col.elements)
          && rest.value == MissingElement(probes[1..][k].selector, probes[1..][k].call);
        assert probes[k + 1].selector !in col.elements;
        assert forall j :: 0 <= j < k + 1 ==> probes[j].selector in col.elements by {
          forall j | 0 <= j < k + 1 ensures probes[j].selector in col.elements {
            if j > 0 { assert probes[j] == probes[1..][j - 1]; }
          }
        }
        rest
      else rest
  }

  /** The text of the `.date` element, `None` when there is none. */
  function DateText(col: Column): (r: Option<string>)
    ensures r.Some? <==> ".date" in col.elements
    ensures r.Some? ==> r.value == col.elements[".date"].text
  {
    if ".date" in col.elements then Some(col.elements[".date"].text) else None
  }

  /**
   * `numero_dia`: the integer after the first comma of the stripped date text;
   * `None` when the text is missing or empty.
   */
  function DayNumber(raw: Option<string>): (r: Result<Option<int>, DayFault>)
    ensures raw.None? || raw == Some("") ==> r == Ok(None)
    ensures r == Ok(None) ==> raw.None? || raw == Some("")
    ensures raw.Some? && raw.value != "" && ',' !in Strip(raw.value) ==> r == Err(NoSecondField)
    ensures raw.Some? && raw.value != "" && ',' in Strip(raw.value) ==>
      (var t := Strip(SecondField(Strip(raw.value)).value);
       (ParseInt(t).None? ==> r == Err(NotAnInteger(t))) && (ParseInt(t).Some? ==> r == Ok(ParseInt(t))))
  {
    if raw.None? || raw.value == "" then Ok(None)
    else
      match SecondField(Strip(raw.value))
      case None => Err(NoSecondField)
      case Some(field) =>
        var t := Strip(field);
        match ParseInt(t)
        case None => Err(NotAnInteger(t))
        case Some(n) => Ok(Some(n))
  }

  /** A rendered date text such as "Sáb, 15" yields the day it shows. */
  lemma DayNumberOfRenderedText(weekday: string, n: nat)
    requires weekday != [] && !IsSpace(weekday[0]) && ',' !in weekday
    ensures DayNumber(Some(weekday + ", " + Decimal(n))) == Ok(Some(n))
  {
    var digits := Decimal(n);
    var tail := " " + digits;
    var raw := weekday + [','] + tail;
    assert weekday + ", " + digits == raw;
    RenderedTextUnpadded(weekday, digits);
    SplitAtFirst(weekday, ',', tail);
    NoCommaInDigits(digits);
    BeforeAbsent(tail, ',');
    StripSpaceThenDigits(digits);
    ParseIntOfDecimal(n);
    DayNumberOfParts(raw, tail, digits, n);
  }

  lemma DayNumberOfParts(raw: string, tail: string, digits: string, n: int)
    requires raw != "" && Strip(raw) == raw && SecondField(raw) == Some(tail)
    requires Strip(tail) == digits && ParseInt(digits) == Some(n)
    ensures DayNumber(Some(raw)) == Ok(Some(n))
  {
  }

  lemma RenderedTextUnpadded(weekday: string, digits: string)
    requires weekday != [] && !IsSpace(weekday[0])
    requires digits != [] && IsDigit(digits[|digits| - 1])
    ensures Strip(weekday + ", " + digits) == weekday + ", " + digits
  {
    var raw := weekday + ", " + digits;
    assert raw[0] == weekday[0];
    assert raw[|raw| - 1] == digits[|digits| - 1];
    StripUnpadded(raw);
  }

  lemma StripSpaceThenDigits(digits: string)
    requires digits != [] && forall i :: 0 <= i < |digits| ==> IsDigit(digits[i])
    ensures Strip(" " + digits) == digits
  {
    var tail := " " + digits;
    assert tail[1..] == digits;
    assert IsSpace(tail[0]);
    assert TrimStart(tail) == TrimStart(digits);
    DigitNotSpace(digits[0]);
    DigitNotSpace(digits[|digits| - 1]);
    StripUnpadded(digits);
  }

  lemma NoCommaInDigits(digits: string)
    requires forall i :: 0 <= i < |digits| ==> IsDigit(digits[i])
    ensures ',' !in " " + digits
  {
    forall i | 0 <= i < |" " + digits| ensures (" " + digits)[i] != ',' {
      if i > 0 { assert (" " + digits)[i] == digits[i - 1]; }
    }
  }

  /**
   * `data_real`: the anchor's year and month with the day number, rendered
   * `YYYY-MM-DD`; `None` for a missing or zero day number; an error for a day
   * the anchor month does not have.
   */
  function DayDate(anchor: Date, n: Option<int>): (r: Result<Option<string>, DayFault>)
    requires ValidDate(anchor)
    ensures n.None? || n == Some(0) ==> r == Ok(None)
    ensures n.Some? && 1 <= n.value <= DaysInMonth(anchor.year, anchor.month) ==> r.Ok? && r.value.Some?
    ensures r.Err? <==> n.Some? && n.value != 0 && !(1 <= n.value <= DaysInMonth(anchor.year, anchor.month))
    ensures r.Err? ==> r.error == DayOutOfRange(n.value)
    ensures r.Ok? && r.value.Some? ==> (n.Some? && IsCanonicalText(r.value.value)
      && ParseYmd(r.value.value) == Some(Date(anchor.year, anchor.month, n.value)))
  {
    if n.None? || n.value == 0 then Ok(None)
    else if 1 <= n.value <= DaysInMonth(anchor.year, anchor.month) then
      var d := Date(anchor.year, anchor.month, n.value);
      FormatThenParse(d);
      Ok(Some(FormatYmd(d)))
    else Err(DayOutOfRange(n.value))
  }

  /**
   * The anchor month is used for every column: a week that runs into the next
   * month dates its first days of that month in the anchor month.
   */
  lemma NextMonthDayTakesAnchorMonth()
    ensures DayDate(Date(2024, 3, 30), Some(1)) == Ok(Some("2024-03-01"))
  {
    assert FormatYmd(Date(2024, 3, 1)) == "2024-03-01";
  }

  /** `iuv`: the `.iuvImg` title when that element exists, else "N/A". */
  function UvIndex(col: Column): (r: Option<string>)
    ensures ".iuvImg" !in col.elements ==> r == Some(UvFallback)
    ensures ".iuvImg" in col.elements ==> r == Attribute(col.elements[".iuvImg"], "title")
  {
    if ".iuvImg" in col.elements then Attribute(col.elements[".iuvImg"], "title") else Some(UvFallback)
  }

  /** The body of the `try` for one column: the day record, or the first exception it raises. */
  function ExtractDay(anchor: Date, col: Column): (r: Result<Entry, DayFault>)
    requires ValidDate(anchor)
    ensures col.fault.Some? ==> r == Err(BrowserFault(col.fault.value))
    ensures r.Ok? ==> r.value.Day?
  {
    if col.fault.Some? then Err(BrowserFault(col.fault.value))
    else
      match DayNumber(DateText(col))
      case Err(f) => Err(f)
      case Ok(n) =>
        match DayDate(anchor, n)
        case Err(f) => Err(f)
        case Ok(data) =>
          match FirstMissing(RecordProbes, col)
          case Some(f) => Err(f)
          case None =>
            RecordElementsAreProbes(col);
            var e := col.elements;
            Ok(Day(data, Attribute(e[".weatherImg"], "title"), e[".tempMin"].text, e[".tempMax"].text,
                   Attribute(e[".windImg"], "title"), e[".windDir"].text,
                   Attribute(e[".weatherImg"], "src"), e[".precProb"].text, UvIndex(col)))
  }

  /**
   * The `try` body succeeds exactly when there is no browser error, the day
   * number and date are computed and no element the record reads is missing;
   * otherwise its error is the first exception raised.
   */
  lemma ExtractDayOutcome(anchor: Date, col: Column)
    requires ValidDate(anchor)
    ensures var r := ExtractDay(anchor, col);
      && (r.Ok? <==> (col.fault.None? && DayNumber(DateText(col)).Ok?
            && DayDate(anchor, DayNumber(DateText(col)).value).Ok? && FirstMissing(RecordProbes, col).None?))
      && (r.Ok? ==> r.value.Day? && r.value.data == DayDate(anchor, DayNumber(DateText(col)).value).value)
      && (r.Ok? ==> HasRecordElements(col) && r.value.iuv == UvIndex(col))
      && (r.Err? && col.fault.Some? ==> r.error == BrowserFault(col.fault.value))
      && (r.Err? && col.fault.None? && DayNumber(DateText(col)).Err? ==> r.error == DayNumber(DateText(col)).error)
  {
    RecordElementsAreProbes(col);
  }

  /**
   * One loop iteration with its `except Exception`: the day record, or an
   * entry holding only `erro`.
   */
  function ProcessDay(anchor: Date, col: Column): (r: Entry)
    requires ValidDate(anchor)
    ensures r.Failed? ==> DayFailurePrefix <= r.erro
    ensures col.fault.Some? ==> r == Failed(DayFailurePrefix + col.fault.value)
  {
    var x := ExtractDay(anchor, col);
    if x.Ok? then x.value else Failed(DayFailurePrefix + FaultText(x.error))
  }

  /**
   * A day record holds every element the record reads, each field taken from
   * its element, and either no date or the anchor month's date for the day number.
   */
  lemma ProcessDayRecord(anchor: Date, col: Column)
    requires ValidDate(anchor)
    ensures var r := ProcessDay(anchor, col);
      r.Day? ==> (
        && HasRecordElements(col)
        && r.iuv == UvIndex(col)
        && r.tempMin == col.elements[".tempMin"].text && r.tempMax == col.elements[".tempMax"].text
        && r.precipitacao == col.elements[".precProb"].text && r.direcaoVento == col.elements[".windDir"].text
        && r.tempo == Attribute(col.elements[".weatherImg"], "title")
        && r.imagem == Attribute(col.elements[".weatherImg"], "src")
        && r.vento == Attribute(col.elements[".windImg"], "title")
        && DayNumber(DateText(col)).Ok?
        && (r.data.None? ==> DayNumber(DateText(col)).value in {None, Some(0)})
        && (r.data.Some? ==> (IsCanonicalText(r.data.value) && DayNumber(DateText(col)).value.Some?
            && ParseYmd(r.data.value) == Some(Date(anchor.year, anchor.month, DayNumber(DateText(col)).value.value)))))
  {
    ExtractDayOutcome(anchor, col);
  }

  /**
   * A column without a browser error, with a day number the anchor month has
   * and every element the record reads, gives the day record: its date is the
   * anchor's year and month with that day, zero-padded.
   */
  lemma GoodColumnGivesDay(anchor: Date, col: Column, n: int)
    requires ValidDate(anchor) && col.fault.None?
    requires DayNumber(DateText(col)) == Ok(Some(n))
    requires 1 <= n <= DaysInMonth(anchor.year, anchor.month)
    requires HasRecordElements(col)
    ensures ProcessDay(anchor, col) == GoodDay(anchor, col, n)
  {
    GoodColumnExtracts(anchor, col, n);
  }

  /** The record `GoodColumnGivesDay` promises. */
  function GoodDay(anchor: Date, col: Column, n: int): Entry
    requires ValidDate(anchor) && 1 <= n <= DaysInMonth(anchor.year, anchor.month)
    requires HasRecordElements(col)
  {
    var e := col.elements;
    Day(Some(FormatYmd(Date(anchor.year, anchor.month, n))),
      Attribute(e[".weatherImg"], "title"), e[".tempMin"].text, e[".tempMax"].text,
      Attribute(e[".windImg"], "title"), e[".windDir"].text,
      Attribute(e[".weatherImg"], "src"), e[".precProb"].text, UvIndex(col))
  }

  lemma GoodColumnExtracts(anchor: Date, col: Column, n: int)
    requires ValidDate(anchor) && col.fault.None?
    requires DayNumber(DateText(col)) == Ok(Some(n))
    requires 1 <= n <= DaysInMonth(anchor.year, anchor.month)
    requires HasRecordElements(col)
    ensures ExtractDay(anchor, col) == Ok(GoodDay(anchor, col, n))
  {
    DayInMonthDated(anchor, n);
    NothingMissing(col);
  }

  lemma DayInMonthDated(anchor: Date, n: int)
    requires ValidDate(anchor) && 1 <= n <= DaysInMonth(anchor.year, anchor.month)
    ensures DayDate(anchor, Some(n)) == Ok(Some(FormatYmd(Date(anchor.year, anchor.month, n))))
  {
  }

  lemma NothingMissing(col: Column)
    requires HasRecordElements(col)
    ensures FirstMissing(RecordProbes, col) == None
  {
    RecordElementsAreProbes(col);
  }

  /** Missing or empty date text only leaves `data` empty; it is not an error. */
  lemma NoDateTextGivesNoDate(anchor: Date, col: Column)
    requires ValidDate(anchor)
    requires col.fault.None? && HasRecordElements(col)
    requires DateText(col).None? || DateText(col) == Some("")
    ensures ProcessDay(anchor, col).Day? && ProcessDay(anchor, col).data.None?
  {
  }

  /** A day number the anchor month does not have makes the whole entry an error. */
  lemma DayOutOfMonthFails(anchor: Date, col: Column, n: int)
    requires ValidDate(anchor) && col.fault.None?
    requires DayNumber(DateText(col)) == Ok(Some(n))
    requires n != 0 && !(1 <= n <= DaysInMonth(anchor.year, anchor.month))
    ensures ProcessDay(anchor, col) == Failed(DayFailurePrefix + FaultText(DayOutOfRange(n)))
  {
    assert DayDate(anchor, Some(n)) == Err(DayOutOfRange(n));
    assert ExtractDay(anchor, col) == Err(DayOutOfRange(n));
  }

  /** A date text that does not parse makes the whole entry an error, whatever else the column holds. */
  lemma BadDateTextFails(anchor: Date, col: Column)
    requires ValidDate(anchor) && col.fault.None?
    requires DayNumber(DateText(col)).Err?
    ensures ProcessDay(anchor, col) == Failed(DayFailurePrefix + FaultText(DayNumber(DateText(col)).error))
  {
  }

  /** A day number of 0 is falsy: the entry is a day record with no date, not an error. */
  lemma ZeroDayGivesNoDate(anchor: Date, col: Column)
    requires ValidDate(anchor) && col.fault.None? && HasRecordElements(col)
    requires DayNumber(DateText(col)) == Ok(Some(0))
    ensures ProcessDay(anchor, col).Day? && ProcessDay(anchor, col).data.None?
  {
    NothingMissing(col);
  }

  /** An element the record needs that the column lacks makes the entry an error. */
  lemma MissingElementFails(anchor: Date, col: Column)
    requires ValidDate(anchor)
    requires !HasRecordElements(col)
    ensures ProcessDay(anchor, col).Failed?
  {
    ExtractDayOutcome(anchor, col);
  }

  /** `buscar_previsao` with the browser abstracted: the reference definition. */
  function Scrape(distrito: string, location: string, page: PageOutcome): (r: FetchOutcome)
    ensures page.SelectionTimeout? <==> r == HttpError(404, NotFoundDetail(distrito, location))
    ensures page.LoadTimeout? <==> r == HttpError(504, TimeoutDetail)
    ensures page.LoadFailure? ==> r == Crash(page.message)
    ensures r.Forecast? <==> page.Loaded? && ParseYmd(FirstToken(page.lastUpdate)).Some?
    ensures page.Loaded? && ParseYmd(FirstToken(page.lastUpdate)).None? ==>
      r == Crash(AnchorFaultText(FirstToken(page.lastUpdate)))
    ensures r.Forecast? ==> |r.days| == |page.columns|
    ensures r.Forecast? ==> forall i :: 0 <= i < |r.days| ==>
      r.days[i] == ProcessDay(ParseYmd(FirstToken(page.lastUpdate)).value, page.columns[i])
  {
    match page
    case SelectionTimeout => HttpError(404, NotFoundDetail(distrito, location))
    case LoadTimeout => HttpError(504, TimeoutDetail)
    case LoadFailure(m) => Crash(m)
    case Loaded(lastUpdate, cols) =>
      match ParseYmd(FirstToken(lastUpdate))
      case None => Crash(AnchorFaultText(FirstToken(lastUpdate)))
      case Some(anchor) => Forecast(WeekEntries(anchor, cols))
  }

  /** One entry per column, each processed on its own. */
  function WeekEntries(anchor: Date, cols: seq<Column>): (r: seq<Entry>)
    requires ValidDate(anchor)
    ensures |r| == |cols|
  {
    seq(|cols|, i requires 0 <= i < |cols| => ProcessDay(anchor, cols[i]))
  }

  /**
   * `buscar_previsao`: the loop over the weekly columns appends one entry per
   * column, catching each column's exception.
   */
  method BuscarPrevisao(distrito: string, location: string, page: PageOutcome) returns (r: FetchOutcome)
    ensures r == Scrape(distrito, location, page)
  {
    match page {
      case SelectionTimeout =>
        return HttpError(404, NotFoundDetail(distrito, location));
      case LoadTimeout =>
        return HttpError(504, TimeoutDetail);
      case LoadFailure(m) =>
        return Crash(m);
      case Loaded(lastUpdate, dias) =>
        var baseDateStr := FirstToken(lastUpdate);
        var baseDate := ParseYmd(baseDateStr);
        if baseDate.None? {
          return Crash(AnchorFaultText(baseDateStr));
        }
        var previsaoSemana := ProcessColumns(baseDate.value, dias);
        return Forecast(previsaoSemana);
    }
  }

  /** The loop of `buscar_previsao`: one entry per column, in column order. */
  method ProcessColumns(anchor: Date, dias: seq<Column>) returns (previsaoSemana: seq<Entry>)
    requires ValidDate(anchor)
    ensures previsaoSemana == WeekEntries(anchor, dias)
  {
    ghost var semana := WeekEntries(anchor, dias);
    previsaoSemana := [];
    for i := 0 to |dias|
      invariant previsaoSemana == semana[..i]
    {
      assert semana[..i + 1] == semana[..i] + [semana[i]];
      previsaoSemana := previsaoSemana + [ProcessDay(anchor, dias[i])];
    }
    assert semana[..|dias|] == semana;
  }

  /** The 404 detail names both the district and the location. */
  lemma NotFoundNamesBoth(distrito: string, location: string)
    ensures ContainsText(NotFoundDetail(distrito, location), distrito)
    ensures ContainsText(NotFoundDetail(distrito, location), location)
  {
    var d := NotFoundDetail(distrito, location);
    var i := |"Distrito '"|;
    var j := i + |distrito| + |"' ou localidade '"|;
    assert OccursAt(d, distrito, i);
    assert OccursAt(d, location, j);
  }

  /**
   * Per-column isolation: an entry depends only on its own column, so a
   * failing column neither removes nor reorders nor changes the others.
   */
  lemma ColumnsIsolated(distrito: string, location: string, lastUpdate: string, cols: seq<Column>, j: nat, other: Column)
    requires j < |cols|
    requires Scrape(distrito, location, Loaded(lastUpdate, cols)).Forecast?
    ensures var before := Scrape(distrito, location, Loaded(lastUpdate, cols)).days;
      var after := Scrape(distrito, location, Loaded(lastUpdate, cols[j := other])).days;
      |after| == |before| && forall i :: 0 <= i < |cols| && i != j ==> after[i] == before[i]
  {
  }

  /** Every dated entry carries a zero-padded `YYYY-MM-DD` date. */
  lemma DatedEntriesCanonical(distrito: string, location: string, page: PageOutcome)
    requires Scrape(distrito, location, page).Forecast?
    ensures forall e :: e in Scrape(distrito, location, page).days && e.Day? && e.data.Some? ==>
      IsCanonicalText(e.data.value)
  {
    var days := Scrape(distrito, location, page).days;
    var anchor := ParseYmd(FirstToken(page.lastUpdate)).value;
    forall i | 0 <= i < |days| {
      ProcessDayRecord(anchor, page.columns[i]);
    }
  }
}
