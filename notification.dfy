// SMS notification gating: a sliding one-minute rate limiter, a per-key
// cooldown map and a CRITICAL bypass, with the clock passed in as `now`
// and the outcome of the SMS gateway call passed in as `delivered`.

module Notification {
  import opened Common

  datatype Priority = Low | Medium | High | Critical

  /** The error a CRITICAL notification raises when the SMS cannot be sent. */
  datatype NotifyError = CriticalSendFailed

  /** What is handed to the SMS gateway: recipient and message text. */
  datatype Sms = Sms(to: string, body: string)

  /** The service's mutable bookkeeping, as one value. */
  datatype Tracking = Tracking(history: seq<Timestamp>, cache: map<string, Timestamp>)

  const DefaultRateLimit: int := 10
  const DefaultCooldownSeconds: int := 300

  // ---------------------------------------------------------------------
  // Rate limit and cooldown
  // ---------------------------------------------------------------------

  /** The history entries strictly newer than one minute before `now`, in order. */
  function Recent(history: seq<Timestamp>, now: Timestamp): (r: seq<Timestamp>)
    ensures |r| <= |history|
    ensures forall t :: t in r <==> t in history && t > now - MicrosPerMinute
  {
    if |history| == 0 then []
    else
      var t := history[|history| - 1];
      var rest := Recent(history[..|history| - 1], now);
      assert history == history[..|history| - 1] + [t];
      if t > now - MicrosPerMinute then rest + [t] else rest
  }

  /** Pruning early loses nothing: pruning again later gives what pruning once later gives. */
  lemma {:induction false} RecentOfRecent(history: seq<Timestamp>, now: Timestamp, later: Timestamp)
    requires now <= later
    ensures Recent(Recent(history, now), later) == Recent(history, later)
    decreases |history|
  {
    if |history| > 0 {
      var init := history[..|history| - 1];
      var t := history[|history| - 1];
      RecentOfRecent(init, now, later);
      if t > now - MicrosPerMinute {
        RecentSnoc(Recent(init, now), t, later);
      }
    }
  }

  /** Pruning a history with one more entry at the end. */
  lemma RecentSnoc(history: seq<Timestamp>, t: Timestamp, now: Timestamp)
    ensures Recent(history + [t], now)
         == Recent(history, now) + (if t > now - MicrosPerMinute then [t] else [])
  {
    assert (history + [t])[..|history + [t]| - 1] == history;
  }

  /** Message keys count only when non-empty (a falsy key disables the cooldown). */
  predicate HasKey(key: Option<string>)
  {
    key.Some? && key.value != ""
  }

  /** The key was used less than `cooldown` microseconds before `now`. */
  predicate CoolingDown(cache: map<string, Timestamp>, key: string, cooldown: int, now: Timestamp)
  {
    key in cache && now - cache[key] < cooldown
  }

  /** Whether a notification gets as far as the SMS gateway. */
  predicate Admitted(rateLimit: int, cooldown: int, s: Tracking, priority: Priority,
                     key: Option<string>, now: Timestamp)
  {
    priority == Critical
    || (|Recent(s.history, now)| < rateLimit
        && !(HasKey(key) && CoolingDown(s.cache, key.value, cooldown, now)))
  }

  /**
   * One notification attempt: its result and the new bookkeeping. Non-critical
   * attempts prune the history first, whether or not they are then sent.
   */
  function Send(rateLimit: int, cooldown: int, s: Tracking, priority: Priority,
                key: Option<string>, delivered: bool, now: Timestamp): (Result<bool, NotifyError>, Tracking)
  {
    var base := if priority == Critical then s.history else Recent(s.history, now);
    if !Admitted(rateLimit, cooldown, s, priority, key, now) then
      (Success(false), Tracking(base, s.cache))
    else if !delivered then
      (if priority == Critical then Failure(CriticalSendFailed) else Success(false), Tracking(base, s.cache))
    else
      (Success(true), Tracking(base + [now], if HasKey(key) then s.cache[key.value := now] else s.cache))
  }

  /** A message is sent exactly when the gate admits it and the gateway delivers it. */
  lemma SentIffAdmitted(rateLimit: int, cooldown: int, s: Tracking, priority: Priority,
                        key: Option<string>, delivered: bool, now: Timestamp)
    ensures Send(rateLimit, cooldown, s, priority, key, delivered, now).0 == Success(true)
        <==> delivered
             && (priority == Critical
                 || (|Recent(s.history, now)| < rateLimit
                     && !(HasKey(key) && CoolingDown(s.cache, key.value, cooldown, now))))
  {
  }

  /** CRITICAL messages skip both the rate limit and the cooldown; a failed one raises. */
  lemma CriticalBypass(rateLimit: int, cooldown: int, s: Tracking, key: Option<string>,
                       delivered: bool, now: Timestamp)
    ensures Send(rateLimit, cooldown, s, Critical, key, delivered, now).0
         == (if delivered then Success(true) else Failure(CriticalSendFailed))
    ensures Send(rateLimit, cooldown, s, Critical, key, delivered, now).1.history
         == s.history + (if delivered then [now] else [])
  {
  }

  /** Only a CRITICAL message whose delivery failed produces an error. */
  lemma FailureOnlyWhenCritical(rateLimit: int, cooldown: int, s: Tracking, priority: Priority,
                                key: Option<string>, delivered: bool, now: Timestamp)
    ensures Send(rateLimit, cooldown, s, priority, key, delivered, now).0.Failure?
        <==> priority == Critical && !delivered
  {
  }

  /**
   * A successful send appends exactly one timestamp and records the key; any
   * other outcome leaves the cache alone and adds nothing to the history.
   */
  lemma TrackingOnlyOnSuccess(rateLimit: int, cooldown: int, s: Tracking, priority: Priority,
                              key: Option<string>, delivered: bool, now: Timestamp)
    ensures var (r, t) := Send(rateLimit, cooldown, s, priority, key, delivered, now);
            var base := if priority == Critical then s.history else Recent(s.history, now);
            (r == Success(true) ==> t.history == base + [now]
                                    && t.cache == (if HasKey(key) then s.cache[key.value := now] else s.cache))
            && (r != Success(true) ==> t.history == base && t.cache == s.cache)
  {
  }

  /**
   * After a non-critical message is sent, the one-minute window ending at any
   * later instant holds at most `rateLimit` messages.
   */
  lemma {:induction false} RateRespected(rateLimit: int, cooldown: int, s: Tracking, priority: Priority,
                                         key: Option<string>, delivered: bool, now: Timestamp, later: Timestamp)
    requires priority != Critical && now <= later
    requires Send(rateLimit, cooldown, s, priority, key, delivered, now).0 == Success(true)
    ensures |Recent(Send(rateLimit, cooldown, s, priority, key, delivered, now).1.history, later)| <= rateLimit
  {
    var base := Recent(s.history, now);
    assert Send(rateLimit, cooldown, s, priority, key, delivered, now).1.history == base + [now];
    RecentSnoc(base, now, later);
    RecentOfRecent(s.history, now, later);
    assert |Recent(base, later)| <= |base| < rateLimit;
  }

  /**
   * After a keyed message is sent, a non-critical message with the same key is
   * rejected until the cooldown has passed.
   */
  lemma {:induction false} RepeatWithinCooldownRejected(
    rateLimit: int, cooldown: int, s: Tracking, priority: Priority, key: Option<string>,
    delivered: bool, now: Timestamp, priority2: Priority, delivered2: bool, later: Timestamp)
    requires HasKey(key) && now <= later < now + cooldown
    requires Send(rateLimit, cooldown, s, priority, key, delivered, now).0 == Success(true)
    requires priority2 != Critical
    ensures var t := Send(rateLimit, cooldown, s, priority, key, delivered, now).1;
            Send(rateLimit, cooldown, t, priority2, key, delivered2, later).0 == Success(false)
  {
    var t := Send(rateLimit, cooldown, s, priority, key, delivered, now).1;
    assert t.cache[key.value] == now;
    assert CoolingDown(t.cache, key.value, cooldown, later);
  }

  /** Once the cooldown has passed, the key no longer blocks anything. */
  lemma CooldownExpires(cache: map<string, Timestamp>, key: string, cooldown: int, now: Timestamp)
    requires key in cache && now >= cache[key] + cooldown
    ensures !CoolingDown(cache, key, cooldown, now)
  {
  }

  // ---------------------------------------------------------------------
  // Message texts and keys
  // ---------------------------------------------------------------------

  /**
   * The trade alert text. `money` and `quantity` stand for the thousands-
   * separated two- and eight-decimal number formats.
   */
  function TradeAlert(money: real -> string, quantity: real -> string, tradeType: string,
                      symbol: string, price: real, size: real, pnl: Option<real>): (m: string)
    ensures |m| > |"TRADE ALERT: " + Upper(tradeType) + " "|
    ensures m[..|"TRADE ALERT: " + Upper(tradeType) + " "|] == "TRADE ALERT: " + Upper(tradeType) + " "
  {
    var head := "TRADE ALERT: " + Upper(tradeType) + " " + symbol + " @ $" + money(price)
                + " Size: " + quantity(size);
    if pnl.Some? then head + " PnL: $" + money(pnl.value) else head
  }

  /** A P&L only appends a suffix to the alert that has none. */
  lemma PnlOnlyAppends(money: real -> string, quantity: real -> string, tradeType: string,
                       symbol: string, price: real, size: real, pnl: real)
    ensures TradeAlert(money, quantity, tradeType, symbol, price, size, Some(pnl))
         == TradeAlert(money, quantity, tradeType, symbol, price, size, None) + " PnL: $" + money(pnl)
  {
  }

  function EntryKey(symbol: string): string { "trade_entry_" + symbol }
  function ExitKey(symbol: string): string { "trade_exit_" + symbol }
  function RiskKey(alertType: string): string { "risk_" + Lower(alertType) }
  function SystemKey(status: string): string { "system_" + Lower(status) }

  /** The four key families never collide, so one kind of alert never cools another. */
  lemma KeysDistinct(a: string, b: string)
    ensures EntryKey(a) != ExitKey(b)
    ensures EntryKey(a) != RiskKey(b) && ExitKey(a) != RiskKey(b)
    ensures EntryKey(a) != SystemKey(b) && ExitKey(a) != SystemKey(b)
    ensures RiskKey(a) != SystemKey(b)
  {
    assert EntryKey(a)[7] == 'n' && ExitKey(b)[7] == 'x';
    assert EntryKey(a)[0] == 't' && ExitKey(a)[0] == 't';
    assert RiskKey(b)[0] == 'r' && SystemKey(b)[0] == 's';
    assert RiskKey(a)[0] == 'r';
  }

  /** Keys are never empty, so keyed notifications are always subject to the cooldown. */
  lemma KeysAreTruthy(s: string)
    ensures HasKey(Some(EntryKey(s))) && HasKey(Some(ExitKey(s)))
    ensures HasKey(Some(RiskKey(s))) && HasKey(Some(SystemKey(s)))
  {
    assert EntryKey(s)[0] == 't' && ExitKey(s)[0] == 't';
    assert RiskKey(s)[0] == 'r' && SystemKey(s)[0] == 's';
  }

  /** Risk and status keys ignore letter case. */
  lemma KeysIgnoreCase(s: string)
    ensures RiskKey(Upper(s)) == RiskKey(s)
    ensures SystemKey(Upper(s)) == SystemKey(s)
  {
    LowerOfUpper(s);
  }

  function ExitMessage(money: real -> string, quantity: real -> string, symbol: string,
                       price: real, size: real, pnl: real, reason: string): (m: string)
    ensures m == TradeAlert(money, quantity, "EXIT", symbol, price, size, Some(pnl)) + "\nReason: " + reason
  {
    TradeAlert(money, quantity, "EXIT", symbol, price, size, Some(pnl)) + "\nReason: " + reason
  }

  function ErrorMessage(error: string): string { "ERROR ALERT: " + error }

  function RiskMessage(alertType: string, details: string): string
  {
    "RISK ALERT: " + alertType + "\n" + details
  }

  /** The status line, followed by the details only when they are non-empty. */
  function StatusMessage(status: string, details: Option<string>): (m: string)
    ensures |m| >= |"SYSTEM STATUS: " + status|
    ensures m[..|"SYSTEM STATUS: " + status|] == "SYSTEM STATUS: " + status
    ensures HasKey(details) <==> |m| > |"SYSTEM STATUS: " + status|
  {
    if HasKey(details) then "SYSTEM STATUS: " + status + "\n" + details.value
    else "SYSTEM STATUS: " + status
  }

  // ---------------------------------------------------------------------
  // The service
  // ---------------------------------------------------------------------

  class NotificationService {
    /** Maximum messages per minute. */
    const rateLimit: int
    /** Seconds before a message with the same key may be sent again. */
    const cooldownPeriod: int
    const money: real -> string
    const quantity: real -> string
    var messageHistory: seq<Timestamp>
    var notificationCache: map<string, Timestamp>

    constructor (rateLimit: int, cooldownPeriod: int, money: real -> string, quantity: real -> string)
      ensures this.rateLimit == rateLimit && this.cooldownPeriod == cooldownPeriod
      ensures this.money == money && this.quantity == quantity
      ensures messageHistory == [] && notificationCache == map[]
    {
      this.rateLimit := rateLimit;
      this.cooldownPeriod := cooldownPeriod;
      this.money := money;
      this.quantity := quantity;
      messageHistory := [];
      notificationCache := map[];
    }

    function CooldownMicros(): int
    {
      cooldownPeriod * MicrosPerSecond
    }

    function State(): Tracking
      reads this
    {
      Tracking(messageHistory, notificationCache)
    }

    /** Drops history older than one minute; allows sending while fewer than `rateLimit` remain. */
    method CheckRateLimit(now: Timestamp) returns (allowed: bool)
      modifies this`messageHistory
      ensures messageHistory == Recent(old(messageHistory), now)
      ensures allowed <==> |messageHistory| < rateLimit
    {
      var history := messageHistory;
      var kept: seq<Timestamp> := [];
      var i := 0;
      while i < |history|
        invariant 0 <= i <= |history|
        invariant kept == Recent(history[..i], now)
      {
        var t := history[i];
        assert history[..i + 1] == history[..i] + [t];
        RecentSnoc(history[..i], t, now);
        if t > now - MicrosPerMinute {
          kept := kept + [t];
        }
        i := i + 1;
      }
      assert history[..i] == history;
      messageHistory := kept;
      allowed := |kept| < rateLimit;
    }

    /** A key may be used unless it was used within the cooldown period. */
    method CheckCooldown(key: string, now: Timestamp) returns (allowed: bool)
      ensures allowed <==> !CoolingDown(notificationCache, key, CooldownMicros(), now)
    {
      allowed := true;
      if key in notificationCache {
        var lastSent := notificationCache[key];
        if now - lastSent < cooldownPeriod * MicrosPerSecond {
          allowed := false;
        }
      }
    }

    /**
     * Sends `message` unless the gate rejects it. `sms` is what reaches the
     * gateway; `delivered` is the gateway's outcome.
     */
    method SendNotification(toNumber: string, message: string, priority: Priority,
                            key: Option<string>, delivered: bool, now: Timestamp)
      returns (r: Result<bool, NotifyError>, sms: Option<Sms>)
      modifies this`messageHistory, this`notificationCache
      ensures (r, State()) == Send(rateLimit, CooldownMicros(), old(State()), priority, key, delivered, now)
      ensures sms == if Admitted(rateLimit, CooldownMicros(), old(State()), priority, key, now)
                     then Some(Sms(toNumber, message)) else None
    {
      if priority != Critical {
        var underLimit := CheckRateLimit(now);
        if !underLimit {
          return Success(false), None;
        }
      }
      if HasKey(key) && priority != Critical {
        var free := CheckCooldown(key.value, now);
        if !free {
          return Success(false), None;
        }
      }
      sms := Some(Sms(toNumber, message));
      if !delivered {
        r := if priority == Critical then Failure(CriticalSendFailed) else Success(false);
        return;
      }
      messageHistory := messageHistory + [now];
      if HasKey(key) {
        notificationCache := notificationCache[key.value := now];
      }
      r := Success(true);
    }

    method NotifyTradeEntry(toNumber: string, symbol: string, price: real, size: real,
                            delivered: bool, now: Timestamp)
      returns (r: Result<bool, NotifyError>, sms: Option<Sms>)
      modifies this`messageHistory, this`notificationCache
      ensures (r, State()) == Send(rateLimit, CooldownMicros(), old(State()), High, Some(EntryKey(symbol)), delivered, now)
      ensures sms.Some? ==> sms.value == Sms(toNumber, TradeAlert(money, quantity, "ENTRY", symbol, price, size, None))
    {
      var message := TradeAlert(money, quantity, "ENTRY", symbol, price, size, None);
      r, sms := SendNotification(toNumber, message, High, Some(EntryKey(symbol)), delivered, now);
    }

    method NotifyTradeExit(toNumber: string, symbol: string, price: real, size: real, pnl: real,
                           exitReason: string, delivered: bool, now: Timestamp)
      returns (r: Result<bool, NotifyError>, sms: Option<Sms>)
      modifies this`messageHistory, this`notificationCache
      ensures (r, State()) == Send(rateLimit, CooldownMicros(), old(State()), High, Some(ExitKey(symbol)), delivered, now)
      ensures sms.Some? ==> sms.value == Sms(toNumber, ExitMessage(money, quantity, symbol, price, size, pnl, exitReason))
    {
      var message := ExitMessage(money, quantity, symbol, price, size, pnl, exitReason);
      r, sms := SendNotification(toNumber, message, High, Some(ExitKey(symbol)), delivered, now);
    }

    /** Errors carry no key, so only the rate limit applies to them. */
    method NotifyError(toNumber: string, error: string, priority: Priority, delivered: bool, now: Timestamp)
      returns (r: Result<bool, NotifyError>, sms: Option<Sms>)
      modifies this`messageHistory, this`notificationCache
      ensures (r, State()) == Send(rateLimit, CooldownMicros(), old(State()), priority, None, delivered, now)
      ensures sms.Some? ==> sms.value == Sms(toNumber, ErrorMessage(error))
    {
      r, sms := SendNotification(toNumber, ErrorMessage(error), priority, None, delivered, now);
    }

    method NotifyRiskAlert(toNumber: string, alertType: string, details: string, priority: Priority,
                           delivered: bool, now: Timestamp)
      returns (r: Result<bool, NotifyError>, sms: Option<Sms>)
      modifies this`messageHistory, this`notificationCache
      ensures (r, State()) == Send(rateLimit, CooldownMicros(), old(State()), priority, Some(RiskKey(alertType)), delivered, now)
      ensures sms.Some? ==> sms.value == Sms(toNumber, RiskMessage(alertType, details))
    {
      r, sms := SendNotification(toNumber, RiskMessage(alertType, details), priority,
                                 Some(RiskKey(alertType)), delivered, now);
    }

    method NotifySystemStatus(toNumber: string, status: string, details: Option<string>, priority: Priority,
                              delivered: bool, now: Timestamp)
      returns (r: Result<bool, NotifyError>, sms: Option<Sms>)
      modifies this`messageHistory, this`notificationCache
      ensures (r, State()) == Send(rateLimit, CooldownMicros(), old(State()), priority, Some(SystemKey(status)), delivered, now)
      ensures sms.Some? ==> sms.value == Sms(toNumber, StatusMessage(status, details))
    {
      r, sms := SendNotification(toNumber, StatusMessage(status, details), priority,
                                 Some(SystemKey(status)), delivered, now);
    }
  }
}
