/** Candle acquisition with fallback (src/app.py).

    The network, the clock and the environment are parameters: the API key,
    the current Unix time, the provider's reply and the downloaded table are
    given, and each fetch also returns the request it would issue, so that
    "no request is made" is a statement about the result. */
module App {
  import opened Frames

  // ---------------------------------------------------------------------------
  // Primary provider (Finnhub candles).

  /** The columns of a candle table, in order; the index is the candle time. */
  const CandleColumns: seq<string> := ["open", "high", "low", "close", "volume"]

  /** The query of one candle request: symbol, bar resolution, the window
      [from, to] in Unix seconds, and the access token. */
  datatype CandleRequest = CandleRequest(symbol: string, resolution: string, from: int, to: int, token: string)

  /** A decoded JSON body: the status field `s` (absent or a string) and the
      parallel arrays t, o, h, l, c, v. */
  datatype Payload = Payload(s: Option<string>, t: seq<int>, o: seq<real>, h: seq<real>,
                             l: seq<real>, c: seq<real>, v: seq<real>)

  /** What the HTTP call produced: a transport fault (timeout, connection
      error), or a status code with a body that decodes as JSON or not. */
  datatype Reply = TransportFault | Response(status: int, body: Option<Payload>)

  /** The request issued (if any) and the candle table obtained (if any). */
  datatype FinnhubCall = FinnhubCall(request: Option<CandleRequest>, frame: Option<Frame>)

  /** An unset or empty key is falsy: the source is unconfigured. */
  predicate HasKey(key: Option<string>)
  {
    key.Some? && key.value != ""
  }

  /** Invalid key, forbidden, rate limited. */
  predicate Rejected(status: int)
  {
    status == 401 || status == 403 || status == 429
  }

  /** The codes for which `raise_for_status` raises. */
  predicate HttpError(status: int)
  {
    400 <= status < 600
  }

  /** All six arrays have one entry per timestamp. */
  predicate Parallel(p: Payload)
  {
    |p.o| == |p.t| && |p.h| == |p.t| && |p.l| == |p.t| && |p.c| == |p.t| && |p.v| == |p.t|
  }

  /** The reply gets past every early return and reaches the table constructor. */
  predicate Accepted(reply: Reply)
  {
    reply.Response? && !Rejected(reply.status) && !HttpError(reply.status)
    && reply.body.Some? && reply.body.value.s == Some("ok")
  }

  function Lift(xs: seq<real>): (c: seq<Cell>)
    ensures |c| == |xs| && forall i :: 0 <= i < |xs| ==> c[i] == Some(xs[i])
  {
    seq(|xs|, i requires 0 <= i < |xs| => Some(xs[i]))
  }

  /** The candle table: row i is (t[i]; o[i], h[i], l[i], c[i], v[i]). */
  function CandleFrame(p: Payload): (f: Frame)
    requires Parallel(p)
    ensures f.names == CandleColumns && |f.rows| == |p.t|
    ensures forall i :: 0 <= i < |p.t| ==>
              && f.rows[i].time == p.t[i]
              && f.rows[i].cells == [Some(p.o[i]), Some(p.h[i]), Some(p.l[i]), Some(p.c[i]), Some(p.v[i])]
  {
    Frame(CandleColumns, seq(|p.t|, i requires 0 <= i < |p.t| =>
      Row(p.t[i], [Some(p.o[i]), Some(p.h[i]), Some(p.l[i]), Some(p.c[i]), Some(p.v[i])])))
  }

  /** Where each candle column stands. */
  lemma CandlePositions()
    ensures IndexOf(CandleColumns, "open") == 0 && IndexOf(CandleColumns, "high") == 1
    ensures IndexOf(CandleColumns, "low") == 2 && IndexOf(CandleColumns, "close") == 3
    ensures IndexOf(CandleColumns, "volume") == 4
  {
    assert CandleColumns[0][0] == 'o' && CandleColumns[1][0] == 'h';
    assert CandleColumns[2][0] == 'l' && CandleColumns[3][0] == 'c';
  }

  /** Reading the candle table back column by column gives the payload's
      arrays: exactly the five columns, indexed by the timestamps, no cell missing. */
  lemma CandleFrameColumns(p: Payload)
    requires Parallel(p)
    ensures var f := CandleFrame(p);
      && Shaped(f) && GapFree(f) && f.names == CandleColumns
      && |f.rows| == |p.t| && (forall i :: 0 <= i < |p.t| ==> f.rows[i].time == p.t[i])
      && Column(f, "open") == Lift(p.o) && Column(f, "high") == Lift(p.h)
      && Column(f, "low") == Lift(p.l) && Column(f, "close") == Lift(p.c)
      && Column(f, "volume") == Lift(p.v)
  {
    var f := CandleFrame(p);
    assert Shaped(f);
    CandlePositions();
  }

  /** The outcome of one HTTP reply, in the order of the source's checks; every
      fault that `requests` raises is caught and becomes "no table". */
  function ReadReply(reply: Reply): (frame: Option<Frame>)
    requires Accepted(reply) ==> Parallel(reply.body.value)
    ensures frame.Some? <==> Accepted(reply)
  {
    match reply
    case TransportFault => None
    case Response(status, body) =>
      if Rejected(status) then None
      else if HttpError(status) then None
      else if body.None? then None
      else if body.value.s != Some("ok") then None
      else Some(CandleFrame(body.value))
  }

  /** fetch_from_finnhub: without a key nothing is requested; otherwise one
      request for the last `minutes` minutes up to `now`, then the reply decides. */
  function FetchFromFinnhub(key: Option<string>, symbol: string, minutes: int, resolution: string,
                            now: int, reply: Reply): (r: FinnhubCall)
    requires HasKey(key) && Accepted(reply) ==> Parallel(reply.body.value)
    ensures r.request.None? <==> !HasKey(key)
    ensures r.request.Some? ==> r.request.value == CandleRequest(symbol, resolution, r.request.value.from, now, key.value)
    ensures r.request.Some? ==> r.request.value.to - r.request.value.from == 60 * minutes
    ensures r.frame.Some? <==> HasKey(key) && Accepted(reply)
    ensures r.frame.Some? ==> r.frame.value == CandleFrame(reply.body.value)
  {
    if !HasKey(key) then FinnhubCall(None, None)
    else
      var from := now - minutes * 60;
      FinnhubCall(Some(CandleRequest(symbol, resolution, from, now, key.value)), ReadReply(reply))
  }

  /** Without a key (unset or empty) no request is made and there is no table. */
  lemma NoKeyNoRequest(key: Option<string>, symbol: string, minutes: int, resolution: string, now: int, reply: Reply)
    requires !HasKey(key)
    ensures FetchFromFinnhub(key, symbol, minutes, resolution, now, reply) == FinnhubCall(None, None)
  {
  }

  /** 401, 403 and 429 give no table. */
  lemma RejectedGivesNone(key: Option<string>, symbol: string, minutes: int, resolution: string, now: int,
                          status: int, body: Option<Payload>)
    requires Rejected(status)
    ensures FetchFromFinnhub(key, symbol, minutes, resolution, now, Response(status, body)).frame == None
  {
  }

  /** A transport fault, any other error status, or a body that is not JSON
      gives no table: the exception is caught and never reaches the caller. */
  lemma FaultsGiveNone(key: Option<string>, symbol: string, minutes: int, resolution: string, now: int, reply: Reply)
    requires reply.TransportFault? || HttpError(reply.status) || reply.body.None?
    ensures FetchFromFinnhub(key, symbol, minutes, resolution, now, reply).frame == None
  {
  }

  /** A payload whose status field is absent or not "ok" gives no table. */
  lemma NotOkGivesNone(key: Option<string>, symbol: string, minutes: int, resolution: string, now: int,
                       status: int, p: Payload)
    requires p.s != Some("ok")
    ensures FetchFromFinnhub(key, symbol, minutes, resolution, now, Response(status, Some(p))).frame == None
  {
  }

  // ---------------------------------------------------------------------------
  // Secondary provider (yfinance download).

  /** One trading day in minutes: up to this lookback, one day of 1-minute
      bars; beyond it, five days of 5-minute bars. */
  const TradingDayMinutes: int := 390

  datatype DownloadRequest = DownloadRequest(symbol: string, period: string, interval: string)

  /** Column labels of a downloaded table: plain names, or multi-level labels
      such as ("Open", "AAPL"). */
  datatype Labels = FlatLabels(names: seq<string>) | MultiLabels(levels: seq<seq<string>>)

  /** A downloaded table before normalisation. */
  datatype Download = Download(labels: Labels, rows: seq<Row>)

  datatype DataError =
    | EmptyDownload        // the RuntimeError of fetch_from_yfinance
    | AmbiguousTruthValue  // the ValueError of `frame or ...` on a DataFrame

  datatype YFinanceCall = YFinanceCall(request: DownloadRequest, result: Result<Frame, DataError>)

  function LabelCount(l: Labels): nat
  {
    match l
    case FlatLabels(names) => |names|
    case MultiLabels(levels) => |levels|
  }

  /** Every multi-level label has a first level, and every row one cell per label. */
  predicate WellFormedDownload(d: Download)
  {
    (d.labels.MultiLabels? ==> forall j :: 0 <= j < |d.labels.levels| ==> |d.labels.levels[j]| >= 1)
    && forall i :: 0 <= i < |d.rows| ==> |d.rows[i].cells| == LabelCount(d.labels)
  }

  /** Period and bar interval for a lookback. */
  function Granularity(symbol: string, minutes: int): (req: DownloadRequest)
    ensures minutes <= TradingDayMinutes ==> req == DownloadRequest(symbol, "1d", "1m")
    ensures minutes > TradingDayMinutes ==> req == DownloadRequest(symbol, "5d", "5m")
  {
    var period := if minutes <= TradingDayMinutes then "1d" else "5d";
    var interval := if minutes <= TradingDayMinutes then "1m" else "5m";
    DownloadRequest(symbol, period, interval)
  }

  predicate IsUpper(ch: char) { 'A' <= ch <= 'Z' }

  /** No upper-case letter. */
  predicate IsLowerCase(s: string)
  {
    forall k :: 0 <= k < |s| ==> !IsUpper(s[k])
  }

  /** `str.lower()` on ASCII letters: each upper-case letter becomes its
      lower-case partner, 32 code points on; every other character stays. */
  function Lower(s: string): (r: string)
    ensures |r| == |s| && IsLowerCase(r)
    ensures forall k :: 0 <= k < |s| && IsUpper(s[k]) ==> r[k] as int == s[k] as int + 32
    ensures forall k :: 0 <= k < |s| && !IsUpper(s[k]) ==> r[k] == s[k]
  {
    seq(|s|, k requires 0 <= k < |s| => if IsUpper(s[k]) then (s[k] as int + 32) as char else s[k])
  }

  /** `rename(columns={"adj close": "close"})` on one name. */
  function Renamed(x: string): (y: string)
    ensures y != "adj close"
    ensures x != "adj close" ==> y == x
    ensures x == "adj close" ==> y == "close"
  {
    if x == "adj close" then "close" else x
  }

  /** The name of column j before renaming: the lower-cased label, or the
      lower-cased first level of a multi-level label. */
  function LoweredLabel(l: Labels, j: nat): string
    requires j < LabelCount(l)
    requires l.MultiLabels? ==> |l.levels[j]| >= 1
  {
    match l
    case FlatLabels(names) => Lower(names[j])
    case MultiLabels(levels) => Lower(levels[j][0])
  }

  /** The normalised column names: one per label, all lower-case, with
      "adj close" renamed to "close". */
  function NormalisedNames(l: Labels): (names: seq<string>)
    requires l.MultiLabels? ==> forall j :: 0 <= j < |l.levels| ==> |l.levels[j]| >= 1
    ensures |names| == LabelCount(l)
    ensures forall j :: 0 <= j < |names| ==> IsLowerCase(names[j]) && names[j] != "adj close"
    ensures forall j :: 0 <= j < |names| ==> names[j] == Renamed(LoweredLabel(l, j))
  {
    var lowered := match l
      case FlatLabels(ns) => seq(|ns|, j requires 0 <= j < |ns| => Lower(ns[j]))
      case MultiLabels(levels) => seq(|levels|, j requires 0 <= j < |levels| && |levels[j]| >= 1 => Lower(levels[j][0]));
    seq(|lowered|, j requires 0 <= j < |lowered| => Renamed(lowered[j]))
  }

  /** yfinance's adjusted-close label, flat or as the first level of a
      multi-level label, ends up as the `close` column. */
  lemma AdjustedCloseBecomesClose()
    ensures NormalisedNames(FlatLabels(["Adj Close", "Open"])) == ["close", "open"]
    ensures NormalisedNames(MultiLabels([["Adj Close", "AAPL"]])) == ["close"]
  {
    assert Lower("Adj Close") == "adj close";
    assert Lower("Open") == "open";
  }

  /** `df.tail(n)`: the last n rows (all of them when there are fewer), none
      for n = 0, and all but the first |n| for negative n. */
  function Tail(rows: seq<Row>, n: int): (t: seq<Row>)
    ensures n == 0 ==> t == []
    ensures n > 0 ==> |t| == (if n < |rows| then n else |rows|) && t == rows[|rows| - |t|..]
    ensures n < 0 ==> t == rows[(if -n < |rows| then -n else |rows|)..]
  {
    if n == 0 then []
    else if n > 0 then (if n < |rows| then rows[|rows| - n..] else rows)
    else (if -n < |rows| then rows[-n..] else [])
  }

  /** fetch_from_yfinance: the download for the lookback's granularity; an
      empty result raises; otherwise normalised names and the last rows. */
  function FetchFromYFinance(symbol: string, minutes: int, download: Option<Download>): (r: YFinanceCall)
    requires download.Some? ==> WellFormedDownload(download.value)
    ensures r.request == Granularity(symbol, minutes)
    ensures r.result.Err? <==> download.None? || download.value.rows == [] || LabelCount(download.value.labels) == 0
    ensures r.result.Err? ==> r.result.error == EmptyDownload
    ensures r.result.Ok? ==>
              && Shaped(r.result.value)
              && r.result.value.names == NormalisedNames(download.value.labels)
              && r.result.value.rows == Tail(download.value.rows, minutes)
  {
    var request := Granularity(symbol, minutes);
    if download.None? || download.value.rows == [] || LabelCount(download.value.labels) == 0 then
      YFinanceCall(request, Err(EmptyDownload))
    else
      var d := download.value;
      YFinanceCall(request, Ok(Frame(NormalisedNames(d.labels), Tail(d.rows, minutes))))
  }

  // ---------------------------------------------------------------------------
  // Fallback order.

  /** The requests issued to each provider and what the caller receives. */
  datatype DataOutcome = DataOutcome(primary: Option<CandleRequest>, secondary: Option<DownloadRequest>,
                                     result: Result<Frame, DataError>)

  /** get_data as written: `fetch_from_finnhub(...) or fetch_from_yfinance(...)`.
      `or` asks for the truth value of the first operand; None is falsy, but a
      DataFrame refuses to have one and raises ValueError. */
  function GetData(key: Option<string>, symbol: string, minutes: int, now: int,
                   reply: Reply, download: Option<Download>): (r: DataOutcome)
    requires HasKey(key) && Accepted(reply) ==> Parallel(reply.body.value)
    requires download.Some? ==> WellFormedDownload(download.value)
    ensures r.primary.None? <==> !HasKey(key)
    ensures r.secondary.Some? ==> r.secondary.value == Granularity(symbol, minutes)
  {
    var first := FetchFromFinnhub(key, symbol, minutes, "1", now, reply);
    if first.frame.Some? then
      DataOutcome(first.request, None, Err(AmbiguousTruthValue))
    else
      var second := FetchFromYFinance(symbol, minutes, download);
      DataOutcome(first.request, Some(second.request), second.result)
  }

  /** When the primary provider yields no table, get_data falls back to the
      secondary provider and returns exactly its outcome. */
  lemma FallbackOnPrimaryFailure(key: Option<string>, symbol: string, minutes: int, now: int,
                                 reply: Reply, download: Option<Download>)
    requires !(HasKey(key) && Accepted(reply))
    requires download.Some? ==> WellFormedDownload(download.value)
    ensures GetData(key, symbol, minutes, now, reply, download).secondary == Some(Granularity(symbol, minutes))
    ensures GetData(key, symbol, minutes, now, reply, download).result
      == FetchFromYFinance(symbol, minutes, download).result
  {
  }

  /** When the primary provider yields no table and the download is empty,
      the caller gets the empty-download error. */
  lemma BothEmptyRaises(key: Option<string>, symbol: string, minutes: int, now: int,
                        reply: Reply, download: Option<Download>)
    requires !(HasKey(key) && Accepted(reply))
    requires download.None? || download.value.rows == []
    requires download.Some? ==> WellFormedDownload(download.value)
    ensures GetData(key, symbol, minutes, now, reply, download).result == Err(EmptyDownload)
  {
  }

  /** As written, every table from the primary provider (even an empty one)
      makes get_data raise instead of returning it, and the secondary provider
      is never asked. */
  lemma PrimarySuccessRaises(key: Option<string>, symbol: string, minutes: int, now: int,
                             reply: Reply, download: Option<Download>)
    requires HasKey(key) && Accepted(reply) && Parallel(reply.body.value)
    requires download.Some? ==> WellFormedDownload(download.value)
    ensures GetData(key, symbol, minutes, now, reply, download)
      == DataOutcome(Some(CandleRequest(symbol, "1", now - 60 * minutes, now, key.value)), None, Err(AmbiguousTruthValue))
  {
  }

  /** get_data as its documentation describes it: the primary provider's
      table when there is one with at least one row, otherwise the secondary
      provider's outcome (an empty table is not a success). */
  function GetDataFirstSuccess(key: Option<string>, symbol: string, minutes: int, now: int,
                               reply: Reply, download: Option<Download>): (r: DataOutcome)
    requires HasKey(key) && Accepted(reply) ==> Parallel(reply.body.value)
    requires download.Some? ==> WellFormedDownload(download.value)
    ensures r.primary.None? <==> !HasKey(key)
    ensures r.secondary.Some? ==> r.secondary.value == Granularity(symbol, minutes)
  {
    var first := FetchFromFinnhub(key, symbol, minutes, "1", now, reply);
    if first.frame.Some? && first.frame.value.rows != [] then
      DataOutcome(first.request, None, Ok(first.frame.value))
    else
      var second := FetchFromYFinance(symbol, minutes, download);
      DataOutcome(first.request, Some(second.request), second.result)
  }

  /** The first success wins: a non-empty primary table is returned as it
      came, without asking the secondary provider; otherwise the secondary
      decides; a failure is reported only when the secondary provider fails. */
  lemma FirstSuccessWins(key: Option<string>, symbol: string, minutes: int, now: int,
                         reply: Reply, download: Option<Download>)
    requires HasKey(key) && Accepted(reply) ==> Parallel(reply.body.value)
    requires download.Some? ==> WellFormedDownload(download.value)
    ensures var r := GetDataFirstSuccess(key, symbol, minutes, now, reply, download);
      var primaryWins := HasKey(key) && Accepted(reply) && reply.body.value.t != [];
      && (primaryWins ==> r.secondary.None? && r.result == Ok(CandleFrame(reply.body.value)))
      && (!primaryWins ==> r.secondary.Some? && r.result == FetchFromYFinance(symbol, minutes, download).result)
      && (r.result.Err? ==> r.result.error == EmptyDownload)
  {
  }
}
