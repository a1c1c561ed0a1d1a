/**
 * The Telegram channel scraper (src/scrapers/telegram_scraper.py).
 *
 * `TelegramScraper` keeps cumulative statistics in a field that its methods
 * update; the message table it writes through its database session is
 * modelled as a second field, a map keyed by (message_id, channel). What
 * the Telegram client answers is an oracle value of type `Fetch`.
 */
module TelegramScraper {
  import opened Wrappers

  datatype MessageKey = MessageKey(messageId: int, channel: string)

  /** The `message_data` dictionary stored for one message. */
  datatype MessageData = MessageData(messageId: int, text: Option<string>, channel: string,
                                     channelTitle: string, date: int)

  function KeyOf(m: MessageData): MessageKey
  {
    MessageKey(m.messageId, m.channel)
  }

  /** `self.stats` */
  datatype Stats = Stats(messagesSaved: nat, messagesSkipped: nat, errors: nat, channelsProcessed: nat)

  /** The scraper's statistics together with the message table. */
  datatype State = State(stats: Stats, table: map<MessageKey, MessageData>)

  /** How the database behaves during one save: the existence query or the commit may raise. */
  datatype Fault = NoFault | QueryFails | CommitFails

  datatype SaveOut = SaveOut(state: State, saved: bool)

  /**
   * `save_message(message_data)` with the existence query keyed on
   * (message_id, channel_username); `fault` says whether the query or the
   * commit raises. As written the query names a column that does not
   * exist and raises every time, the `QueryFails` case (`KeysAsWritten`).
   */
  function SaveStep(s: State, m: MessageData, fault: Fault): SaveOut
  {
    if fault == QueryFails then SaveOut(s.(stats := s.stats.(errors := s.stats.errors + 1)), false)
    else if KeyOf(m) in s.table then SaveOut(s.(stats := s.stats.(messagesSkipped := s.stats.messagesSkipped + 1)), false)
    else if fault == CommitFails then SaveOut(s.(stats := s.stats.(errors := s.stats.errors + 1)), false)
    else SaveOut(State(s.stats.(messagesSaved := s.stats.messagesSaved + 1), s.table[KeyOf(m) := m]), true)
  }

  /**
   * One save bumps exactly one of saved, skipped and errors; it returns
   * True exactly when it inserted the message, and it writes no other row.
   */
  lemma SaveAccounting(s: State, m: MessageData, fault: Fault)
    ensures var o := SaveStep(s, m, fault);
      && (o.saved <==> fault == NoFault && KeyOf(m) !in s.table)
      && o.state.table == (if o.saved then s.table[KeyOf(m) := m] else s.table)
      && o.state.stats.messagesSaved + o.state.stats.messagesSkipped + o.state.stats.errors
         == s.stats.messagesSaved + s.stats.messagesSkipped + s.stats.errors + 1
      && (o.saved <==> o.state.stats.messagesSaved == s.stats.messagesSaved + 1)
      && (KeyOf(m) in s.table && fault != QueryFails ==> o.state.stats.messagesSkipped == s.stats.messagesSkipped + 1)
      && o.state.stats.channelsProcessed == s.stats.channelsProcessed
  {
  }

  /** Saving the same message twice: the second save is skipped and writes nothing. */
  lemma SaveTwiceSkips(s: State, m: MessageData)
    ensures var first := SaveStep(s, m, NoFault);
      var second := SaveStep(first.state, m, NoFault);
      && !second.saved
      && second.state.table == first.state.table
      && second.state.stats.messagesSkipped == first.state.stats.messagesSkipped + 1
  {
  }

  /** One message yielded by `iter_messages`; `fault` is how its save behaves. */
  datatype RawMessage = RawMessage(id: int, message: Option<string>, text: Option<string>, date: int, fault: Fault)

  /**
   * What the client does for one `scrape_channel` call: `get_entity` fails,
   * or it succeeds and `iter_messages` yields some messages and then stops,
   * signals flood control (after which the call is repeated, described by
   * `retry`), refuses access or raises.
   */
  datatype Fetch =
    | EntityNotFound(error: string)
    | Listed(title: string, messages: seq<RawMessage>, ending: Ending)

  datatype Ending =
    | Exhausted
    | FloodWait(seconds: nat, retry: Fetch)
    | AdminRequired
    | Raised(error: string)

  function DataOf(r: RawMessage, channel: string, title: string): MessageData
  {
    MessageData(r.id, r.text, channel, title, r.date)
  }

  /** The state after the `async for` loop over `msgs`; service messages are skipped. */
  function ProcessAll(s: State, channel: string, title: string, msgs: seq<RawMessage>): State
    decreases |msgs|
  {
    if msgs == [] then s
    else
      var s0 := ProcessAll(s, channel, title, msgs[..|msgs| - 1]);
      var r := msgs[|msgs| - 1];
      if r.message.None? then s0 else SaveStep(s0, DataOf(r, channel, title), r.fault).state
  }

  /** `messages_count`: the messages that are not service messages. */
  function Found(msgs: seq<RawMessage>): (n: nat)
    ensures n <= |msgs|
    ensures n == |msgs| <==> forall i :: 0 <= i < |msgs| ==> msgs[i].message.Some?
    ensures n == 0 <==> forall i :: 0 <= i < |msgs| ==> msgs[i].message.None?
    decreases |msgs|
  {
    if msgs == [] then 0
    else Found(msgs[..|msgs| - 1]) + (if msgs[|msgs| - 1].message.None? then 0 else 1)
  }

  datatype ChannelResult =
    | Scraped(channel: string, channelTitle: string, messagesFound: nat,
              messagesSaved: nat, messagesSkipped: nat, errors: nat)
    | Failed(channel: string, error: string, missingSettings: seq<string>)

  const NotFoundPrefix: string := "Канал не найден: "
  const AdminRequiredError: string := "Нет доступа к каналу (требуются права администратора)"

  datatype ChannelOut = ChannelOut(state: State, result: ChannelResult, waits: seq<nat>)

  /** `scrape_channel(channel_username)`, with the flood-control waits it sleeps. */
  function ChannelRun(s: State, channel: string, f: Fetch): ChannelOut
    decreases f
  {
    match f
    case EntityNotFound(e) => ChannelOut(s, Failed(channel, NotFoundPrefix + e, []), [])
    case Listed(title, msgs, ending) =>
      var s1 := ProcessAll(s, channel, title, msgs);
      match ending
      case Exhausted =>
        var st := s1.stats.(channelsProcessed := s1.stats.channelsProcessed + 1);
        ChannelOut(s1.(stats := st),
                   Scraped(channel, title, Found(msgs), st.messagesSaved, st.messagesSkipped, st.errors), [])
      case FloodWait(seconds, retry) =>
        var o := ChannelRun(s1, channel, retry);
        ChannelOut(o.state, o.result, [seconds] + o.waits)
      case AdminRequired => ChannelOut(s1, Failed(channel, AdminRequiredError, []), [])
      case Raised(e) => ChannelOut(s1, Failed(channel, e, []), [])
  }

  /** `a` is no larger than `b` in every counter, and `b`'s table extends `a`'s. */
  predicate Grows(a: State, b: State)
  {
    && a.stats.messagesSaved <= b.stats.messagesSaved
    && a.stats.messagesSkipped <= b.stats.messagesSkipped
    && a.stats.errors <= b.stats.errors
    && a.stats.channelsProcessed <= b.stats.channelsProcessed
    && (forall k :: k in a.table ==> k in b.table && b.table[k] == a.table[k])
  }

  lemma {:induction false} ProcessAllGrows(s: State, channel: string, title: string, msgs: seq<RawMessage>)
    ensures Grows(s, ProcessAll(s, channel, title, msgs))
    ensures ProcessAll(s, channel, title, msgs).stats.channelsProcessed == s.stats.channelsProcessed
    decreases |msgs|
  {
    if msgs != [] {
      ProcessAllGrows(s, channel, title, msgs[..|msgs| - 1]);
    }
  }

  /**
   * Scraping a channel never lowers a counter and never changes or removes
   * a stored message; the result's counts, when it succeeds, are the
   * scraper's cumulative statistics after the channel.
   */
  lemma {:induction false} ChannelRunGrows(s: State, channel: string, f: Fetch)
    ensures var o := ChannelRun(s, channel, f);
      && Grows(s, o.state)
      && o.result.channel == channel
      && (o.result.Scraped? ==>
            && o.result.messagesSaved == o.state.stats.messagesSaved
            && o.result.messagesSkipped == o.state.stats.messagesSkipped
            && o.result.errors == o.state.stats.errors)
    decreases f
  {
    match f
    case EntityNotFound(_) =>
    case Listed(title, msgs, ending) =>
      ProcessAllGrows(s, channel, title, msgs);
      match ending
      case FloodWait(_, retry) =>
        ChannelRunGrows(ProcessAll(s, channel, title, msgs), channel, retry);
      case _ =>
  }

  /** A channel that cannot be resolved is reported as not found and nothing is saved. */
  lemma NotFoundSavesNothing(s: State, channel: string, e: string)
    ensures ChannelRun(s, channel, EntityNotFound(e)) == ChannelOut(s, Failed(channel, NotFoundPrefix + e, []), [])
  {
  }

  /** Without access rights the result is a failure, whatever was read before. */
  lemma AdminRequiredFails(s: State, channel: string, title: string, msgs: seq<RawMessage>)
    ensures ChannelRun(s, channel, Listed(title, msgs, AdminRequired)).result == Failed(channel, AdminRequiredError, [])
  {
  }

  datatype RunOut = RunOut(state: State, results: seq<ChannelResult>, sleeps: seq<nat>)

  /**
   * `scrape_channels(channels)` over the first `|cs|` channels: the
   * results in order and the sleeps, a 2-second pause separating two
   * channels and each channel's flood-control waits in between.
   */
  function ChannelsRun(s: State, cs: seq<string>, fetches: nat -> Fetch): RunOut
    decreases |cs|
  {
    if cs == [] then RunOut(s, [], [])
    else
      var prev := ChannelsRun(s, cs[..|cs| - 1], fetches);
      var o := ChannelRun(prev.state, cs[|cs| - 1], fetches(|cs| - 1));
      RunOut(o.state, prev.results + [o.result],
             prev.sleeps + (if |cs| > 1 then [2] else []) + o.waits)
  }

  /** One result per channel, in input order, and the statistics only grow. */
  lemma {:induction false} ChannelsRunShape(s: State, cs: seq<string>, fetches: nat -> Fetch)
    ensures var r := ChannelsRun(s, cs, fetches);
      && |r.results| == |cs|
      && (forall i :: 0 <= i < |cs| ==> r.results[i].channel == cs[i])
      && Grows(s, r.state)
    decreases |cs|
  {
    if cs != [] {
      var prev := ChannelsRun(s, cs[..|cs| - 1], fetches);
      ChannelsRunShape(s, cs[..|cs| - 1], fetches);
      ChannelRunGrows(prev.state, cs[|cs| - 1], fetches(|cs| - 1));
    }
  }

  /** Every successful result in `rs` reports counts no larger than `st`. */
  predicate AllWithin(rs: seq<ChannelResult>, st: Stats)
  {
    forall i :: 0 <= i < |rs| && rs[i].Scraped? ==>
      && rs[i].messagesSaved <= st.messagesSaved
      && rs[i].messagesSkipped <= st.messagesSkipped
      && rs[i].errors <= st.errors
  }

  /** Every successful result reports counts no larger than the final statistics. */
  lemma {:induction false} ResultsWithinStats(s: State, cs: seq<string>, fetches: nat -> Fetch)
    ensures AllWithin(ChannelsRun(s, cs, fetches).results, ChannelsRun(s, cs, fetches).state.stats)
    decreases |cs|
  {
    if cs != [] {
      var prev := ChannelsRun(s, cs[..|cs| - 1], fetches);
      ResultsWithinStats(s, cs[..|cs| - 1], fetches);
      var o := ChannelRun(prev.state, cs[|cs| - 1], fetches(|cs| - 1));
      ChannelRunGrows(prev.state, cs[|cs| - 1], fetches(|cs| - 1));
      var r := ChannelsRun(s, cs, fetches);
      assert r.results == prev.results + [o.result];
      forall i | 0 <= i < |r.results| && r.results[i].Scraped?
        ensures r.results[i].messagesSaved <= r.state.stats.messagesSaved
        ensures r.results[i].messagesSkipped <= r.state.stats.messagesSkipped
        ensures r.results[i].errors <= r.state.stats.errors
      {
        if i < |prev.results| {
          assert r.results[i] == prev.results[i];
        }
      }
    }
  }

  /**
   * The counts reported per channel are cumulative: a later successful
   * channel never reports fewer saved, skipped or failed messages than an
   * earlier one.
   */
  lemma {:induction false} CumulativeCountsNeverDecrease(s: State, cs: seq<string>, fetches: nat -> Fetch, i: nat, j: nat)
    requires i < j < |cs|
    ensures var r := ChannelsRun(s, cs, fetches).results;
      |r| == |cs| &&
      (r[i].Scraped? && r[j].Scraped? ==>
        && r[i].messagesSaved <= r[j].messagesSaved
        && r[i].messagesSkipped <= r[j].messagesSkipped
        && r[i].errors <= r[j].errors)
    decreases |cs|
  {
    ChannelsRunShape(s, cs, fetches);
    var prev := ChannelsRun(s, cs[..|cs| - 1], fetches);
    ChannelsRunShape(s, cs[..|cs| - 1], fetches);
    if j < |cs| - 1 {
      CumulativeCountsNeverDecrease(s, cs[..|cs| - 1], fetches, i, j);
    } else {
      ResultsWithinStats(s, cs[..|cs| - 1], fetches);
      ChannelRunGrows(prev.state, cs[|cs| - 1], fetches(|cs| - 1));
    }
  }

  // ---------------------------------------------------------------------
  // The keys `save_message` hands to the `TelegramMessage` model
  // ---------------------------------------------------------------------

  /** The attributes of the `TelegramMessage` model (src/models/database.py:79-94). */
  const TelegramColumns: set<string> := {"id", "message_id", "channel_username", "channel_title", "text", "date",
                                         "views", "forwards", "has_media", "media_type", "scraped_at"}

  /** The keywords of the existence query's `filter_by`. */
  const FilterKeys: set<string> := {"message_id", "channel"}

  /** The keywords of the `TelegramMessage(...)` constructor call. */
  const ConstructorKeys: set<string> := {"message_id", "text", "sender", "channel", "channel_username", "channel_title",
                                         "date", "scraped_at", "has_media", "media_type", "views", "forwards", "replies"}

  /** The query evidently meant: the message id within the channel, whose username `channel` also holds. */
  const IntendedFilterKeys: set<string> := {"message_id", "channel_username"}

  /** The constructor call without the keywords that are not columns. */
  const IntendedConstructorKeys: set<string> := ConstructorKeys - {"sender", "channel", "replies"}

  /** `filter_by` and the model's constructor accept only keywords that name attributes; any other raises. */
  predicate Accepted(keys: set<string>)
  {
    keys <= TelegramColumns
  }

  /**
   * As written, both the existence query and the constructor are given
   * 'channel', which is not a column, so `save_message` raises in its
   * query for every message; the intended keywords are all accepted.
   */
  lemma KeysAsWritten()
    ensures !Accepted(FilterKeys) && !Accepted(ConstructorKeys)
    ensures Accepted(IntendedFilterKeys) && Accepted(IntendedConstructorKeys)
  {
    assert "channel" in FilterKeys && "channel" in ConstructorKeys;
    assert "channel"[1] == 'h';
    assert "channel" !in TelegramColumns;
  }

  /** Every save during the fetch meets the fault the query as written causes: the query raises. */
  predicate QueriesFail(f: Fetch)
    decreases f
  {
    match f
    case EntityNotFound(_) => true
    case Listed(_, msgs, ending) =>
      && (forall i :: 0 <= i < |msgs| ==> msgs[i].fault == QueryFails)
      && (ending.FloodWait? ==> QueriesFail(ending.retry))
  }

  /** When every query raises, the message loop writes nothing and counts each real message as an error. */
  lemma {:induction false} ProcessAllAsWritten(s: State, channel: string, title: string, msgs: seq<RawMessage>)
    requires forall i :: 0 <= i < |msgs| ==> msgs[i].fault == QueryFails
    ensures var t := ProcessAll(s, channel, title, msgs);
      t.table == s.table && t.stats == s.stats.(errors := s.stats.errors + Found(msgs))
    decreases |msgs|
  {
    if msgs != [] {
      ProcessAllAsWritten(s, channel, title, msgs[..|msgs| - 1]);
    }
  }

  /** When every query raises, a channel leaves the table and the saved and skipped counters as they were. */
  lemma {:induction false} ChannelRunAsWritten(s: State, channel: string, f: Fetch)
    requires QueriesFail(f)
    ensures var o := ChannelRun(s, channel, f);
      && o.state.table == s.table
      && o.state.stats.messagesSaved == s.stats.messagesSaved
      && o.state.stats.messagesSkipped == s.stats.messagesSkipped
      && (o.result.Scraped? ==> o.result.messagesSaved == s.stats.messagesSaved)
    decreases f
  {
    match f
    case EntityNotFound(_) =>
    case Listed(title, msgs, ending) =>
      ProcessAllAsWritten(s, channel, title, msgs);
      match ending
      case FloodWait(_, retry) =>
        ChannelRunAsWritten(ProcessAll(s, channel, title, msgs), channel, retry);
      case _ =>
  }

  /**
   * As written, a run over any channels stores no message: the table is
   * unchanged, and every channel reports the saved count it started with
   * (0 for a new scraper).
   */
  lemma {:induction false} ChannelsRunSavesNothing(s: State, cs: seq<string>, fetches: nat -> Fetch)
    requires forall i :: 0 <= i < |cs| ==> QueriesFail(fetches(i))
    ensures var r := ChannelsRun(s, cs, fetches);
      && r.state.table == s.table
      && r.state.stats.messagesSaved == s.stats.messagesSaved
      && |r.results| == |cs|
      && (forall i :: 0 <= i < |r.results| && r.results[i].Scraped? ==> r.results[i].messagesSaved == s.stats.messagesSaved)
    decreases |cs|
  {
    if cs != [] {
      var prev := ChannelsRun(s, cs[..|cs| - 1], fetches);
      ChannelsRunSavesNothing(s, cs[..|cs| - 1], fetches);
      var o := ChannelRun(prev.state, cs[|cs| - 1], fetches(|cs| - 1));
      ChannelRunAsWritten(prev.state, cs[|cs| - 1], fetches(|cs| - 1));
      var r := ChannelsRun(s, cs, fetches);
      assert r.results == prev.results + [o.result];
      forall i | 0 <= i < |r.results| && r.results[i].Scraped?
        ensures r.results[i].messagesSaved == s.stats.messagesSaved
      {
        if i < |prev.results| {
          assert r.results[i] == prev.results[i];
        }
      }
    }
  }

  class Scraper {
    var stats: Stats
    /** The `telegram_messages` table the scraper's sessions write to. */
    var table: map<MessageKey, MessageData>

    function Current(): State
      reads this
    {
      State(stats, table)
    }

    /** A new scraper over the existing table, with all counters at zero. */
    constructor(table0: map<MessageKey, MessageData>)
      ensures Current() == State(Stats(0, 0, 0, 0), table0)
    {
      stats := Stats(0, 0, 0, 0);
      table := table0;
    }

    /** `save_message(message_data)` */
    method SaveMessage(m: MessageData, fault: Fault) returns (saved: bool)
      modifies this
      ensures SaveOut(Current(), saved) == SaveStep(old(Current()), m, fault)
    {
      if fault == QueryFails {
        stats := stats.(errors := stats.errors + 1);
        return false;
      }
      if KeyOf(m) in table {
        stats := stats.(messagesSkipped := stats.messagesSkipped + 1);
        return false;
      }
      if fault == CommitFails {
        stats := stats.(errors := stats.errors + 1);
        return false;
      }
      table := table[KeyOf(m) := m];
      stats := stats.(messagesSaved := stats.messagesSaved + 1);
      return true;
    }

    /** The `async for message in iter_messages(...)` loop. */
    method ProcessMessages(channel: string, title: string, msgs: seq<RawMessage>) returns (count: nat)
      modifies this
      ensures Current() == ProcessAll(old(Current()), channel, title, msgs)
      ensures count == Found(msgs)
    {
      count := 0;
      var i := 0;
      while i < |msgs|
        invariant 0 <= i <= |msgs|
        invariant Current() == ProcessAll(old(Current()), channel, title, msgs[..i])
        invariant count == Found(msgs[..i])
      {
        assert msgs[..i + 1][..i] == msgs[..i];
        if msgs[i].message.Some? {
          var _ := SaveMessage(DataOf(msgs[i], channel, title), msgs[i].fault);
          count := count + 1;
        }
        i := i + 1;
      }
      assert msgs[..|msgs|] == msgs;
    }

    /** `scrape_channel(channel_username)`; flood control sleeps and calls itself again. */
    method ScrapeChannel(channel: string, f: Fetch) returns (result: ChannelResult, waits: seq<nat>)
      modifies this
      ensures ChannelOut(Current(), result, waits) == ChannelRun(old(Current()), channel, f)
      decreases f
    {
      match f {
        case EntityNotFound(e) =>
          return Failed(channel, NotFoundPrefix + e, []), [];
        case Listed(title, msgs, ending) =>
          var count := ProcessMessages(channel, title, msgs);
          match ending {
            case Exhausted =>
              stats := stats.(channelsProcessed := stats.channelsProcessed + 1);
              return Scraped(channel, title, count, stats.messagesSaved, stats.messagesSkipped, stats.errors), [];
            case FloodWait(seconds, retry) =>
              var rest;
              result, rest := ScrapeChannel(channel, retry);
              return result, [seconds] + rest;
            case AdminRequired =>
              return Failed(channel, AdminRequiredError, []), [];
            case Raised(e) =>
              return Failed(channel, e, []), [];
          }
      }
    }

    /** `scrape_channels(channels)`; `fetches(i)` is the client's behaviour for the `i`-th channel. */
    method ScrapeChannels(channels: seq<string>, fetches: nat -> Fetch) returns (results: seq<ChannelResult>, sleeps: seq<nat>)
      modifies this
      ensures RunOut(Current(), results, sleeps) == ChannelsRun(old(Current()), channels, fetches)
    {
      results := [];
      sleeps := [];
      var i := 0;
      while i < |channels|
        invariant 0 <= i <= |channels|
        invariant Current() == ChannelsRun(old(Current()), channels[..i], fetches).state
        invariant results == ChannelsRun(old(Current()), channels[..i], fetches).results
        invariant sleeps == ChannelsRun(old(Current()), channels[..i], fetches).sleeps
                            + (if 0 < i < |channels| then [2] else [])
      {
        assert channels[..i + 1][..i] == channels[..i];
        var r, waits := ScrapeChannel(channels[i], fetches(i));
        results := results + [r];
        sleeps := sleeps + waits;
        if i + 1 < |channels| {
          sleeps := sleeps + [2];
        }
        i := i + 1;
      }
      assert channels[..|channels|] == channels;
    }
  }

  /** The Telegram settings read from the configuration; an empty string is unset. */
  datatype Settings = Settings(apiId: string, apiHash: string, phone: string)

  /** `missing_settings`, in the order the checks are made. */
  function MissingSettings(c: Settings): (r: seq<string>)
    ensures "TELEGRAM_API_ID" in r <==> c.apiId == []
    ensures "TELEGRAM_API_HASH" in r <==> c.apiHash == []
    ensures "TELEGRAM_PHONE" in r <==> c.phone == []
    ensures r == [] <==> c.apiId != [] && c.apiHash != [] && c.phone != []
  {
    (if c.apiId == [] then ["TELEGRAM_API_ID"] else [])
    + (if c.apiHash == [] then ["TELEGRAM_API_HASH"] else [])
    + (if c.phone == [] then ["TELEGRAM_PHONE"] else [])
  }

  /** `', '.join(xs)` */
  function JoinComma(xs: seq<string>): string
  {
    if xs == [] then "" else if |xs| == 1 then xs[0] else xs[0] + ", " + JoinComma(xs[1..])
  }

  const ConfigError: string := "Ошибка загрузки конфигурации"
  const ConnectError: string := "Не удалось подключиться к Telegram"
  const MissingPrefix: string := "⚠️ Telegram scraper в разработке. Отсутствуют настройки: "

  function SystemFailure(error: string, missing: seq<string>): ChannelResult
  {
    Failed("system", error, missing)
  }

  /**
   * `scrape_telegram_channels(channels)`. `settings` is `None` when the
   * configuration cannot be loaded and `connects` is what `connect()`
   * returns; the returned table is the message table afterwards.
   */
  method ScrapeTelegramChannels(settings: Option<Settings>, connects: bool, channels: seq<string>,
                                fetches: nat -> Fetch, table0: map<MessageKey, MessageData>)
    returns (results: seq<ChannelResult>, table: map<MessageKey, MessageData>)
    ensures settings.None? ==> results == [SystemFailure(ConfigError, [])] && table == table0
    ensures settings.Some? && MissingSettings(settings.value) != [] ==>
              && results == [SystemFailure(MissingPrefix + JoinComma(MissingSettings(settings.value)),
                                           MissingSettings(settings.value))]
              && table == table0
    ensures settings.Some? && MissingSettings(settings.value) == [] && !connects ==>
              results == [SystemFailure(ConnectError, [])] && table == table0
    ensures settings.Some? && MissingSettings(settings.value) == [] && connects ==>
              var r := ChannelsRun(State(Stats(0, 0, 0, 0), table0), channels, fetches);
              results == r.results && table == r.state.table
  {
    if settings.None? {
      return [SystemFailure(ConfigError, [])], table0;
    }
    var missing := MissingSettings(settings.value);
    if missing != [] {
      return [SystemFailure(MissingPrefix + JoinComma(missing), missing)], table0;
    }
    var scraper := new Scraper(table0);
    if !connects {
      return [SystemFailure(ConnectError, [])], table0;
    }
    var sleeps;
    results, sleeps := scraper.ScrapeChannels(channels, fetches);
    table := scraper.table;
  }
}
