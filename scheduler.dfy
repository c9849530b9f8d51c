/**
 * The scheduler of main.py (class TwitterBot and one pass of `main`'s loop).
 *
 * Everything the bot fetches is an oracle handed to the operations: the
 * mentions `get_mentions` returns, the tweets each `get_user_tweets` and
 * `search_tweets` call returns (in call order) and the public metrics per
 * tweet id.  What the bot does with the outside world is recorded as a log
 * of actions: a tweet handed to `process_mention`, or a `retweet` call.
 * The clock is integer seconds; `asyncio.sleep` and the rate limiters'
 * sleeps advance it, nothing else does.
 *
 * Each operation is given twice: as a function on a snapshot of the bot
 * (`Bot`), which the lemmas reason about, and as a method of the class
 * `TwitterBot`, which updates its fields in place as the source does and is
 * proved to end in the state the function describes.
 */
module Scheduler {
  import opened Wrappers
  import opened Tweets
  import opened RateLimiting
  import Text

  // ---------------------------------------------------------------- constants

  /** The three periodic tasks. */
  datatype Task = MentionsTask | AccountsTask | HashtagsTask

  /** `check_intervals`: the gate `should_process` applies. */
  function CheckInterval(t: Task): int {
    match t
    case MentionsTask => 180
    case AccountsTask => 900
    case HashtagsTask => 1800
  }

  /** The "too soon" guard at the top of each `process_*` method. */
  function InnerGuard(t: Task): int {
    match t
    case MentionsTask => 180
    case AccountsTask => 900
    case HashtagsTask => 900
  }

  /** `is_tweet_recent`'s default age, in minutes. */
  const RecentMinutes: int := 5
  /** `mentions[:3]`. */
  const MentionsPerRun: nat := 3
  /** `process_accounts` skips tweets at or before two hours ago. */
  const AccountLookback: int := 7200
  /** At most this many tweets are processed per hashtag. */
  const HashtagCap: nat := 3
  /** `cleanup_processed_tweets` keeps ids younger than an hour. */
  const Retention: int := 3600

  /** Sleeps, in seconds. */
  const MentionPause: int := 5
  const AccountTweetPause: int := 15
  const AccountPause: int := 30
  const HashtagTweetPause: int := 10
  const HashtagPause: int := 10
  const LoopPause: int := 60

  /** The part of `Config` the scheduler reads. */
  datatype Settings = Settings(
    monitor: seq<string>,
    retweet: seq<string>,
    hashtags: seq<string>,
    minLikes: int,
    errorDelay: int)

  /** The values of config.py. */
  const Defaults: Settings := Settings(["wachmc"], ["wachmc"], ["#alephium"], 25, 300)

  /** The four rate limiters of the bot. */
  datatype Quota = UserTweetsQuota | MentionsQuota | SearchQuota | RetweetQuota

  function Capacity(q: Quota): nat {
    match q
    case UserTweetsQuota => 10
    case MentionsQuota => 5
    case SearchQuota => 5
    case RetweetQuota => 3
  }

  /** Every limiter counts over fifteen minutes. */
  const QuotaWindow: int := 900

  // ------------------------------------------------------------------- state

  /** `last_processed_time`. */
  datatype Stamps = Stamps(mentions: int, accounts: int, hashtags: int) {
    function Get(t: Task): int {
      match t
      case MentionsTask => mentions
      case AccountsTask => accounts
      case HashtagsTask => hashtags
    }

    function Set(t: Task, v: int): (r: Stamps)
      ensures r.Get(t) == v
      ensures forall u :: u != t ==> r.Get(u) == Get(u)
    {
      match t
      case MentionsTask => this.(mentions := v)
      case AccountsTask => this.(accounts := v)
      case HashtagsTask => this.(hashtags := v)
    }
  }

  /** The deques of the four limiters. */
  datatype Logs = Logs(userTweets: seq<int>, mentions: seq<int>, search: seq<int>, retweet: seq<int>) {
    function Get(q: Quota): seq<int> {
      match q
      case UserTweetsQuota => userTweets
      case MentionsQuota => mentions
      case SearchQuota => search
      case RetweetQuota => retweet
    }

    function Set(q: Quota, log: seq<int>): (r: Logs)
      ensures r.Get(q) == log
      ensures forall u :: u != q ==> r.Get(u) == Get(u)
    {
      match q
      case UserTweetsQuota => this.(userTweets := log)
      case MentionsQuota => this.(mentions := log)
      case SearchQuota => this.(search := log)
      case RetweetQuota => this.(retweet := log)
    }
  }

  /** A snapshot of the bot: the clock, `processed_tweets`, the stamps, the limiter deques and the actions so far. */
  datatype Bot = Bot(now: int, seen: set<TweetId>, last: Stamps, logs: Logs, acts: seq<Action>)

  /** How a task run ends: normally, or with an exception that escapes it. */
  datatype Outcome = Done(bot: Bot) | Raised(bot: Bot)

  /** What the bot's calls return during one pass of the loop. */
  datatype Feeds = Feeds(
    mentions: seq<Tweet>,
    accountTweets: seq<seq<Tweet>>,
    searches: seq<seq<Tweet>>,
    metrics: map<TweetId, map<string, int>>)

  // --------------------------------------------------------- the operations

  /** `should_process`: the task is due once its interval has passed since it last ran. */
  function ShouldProcess(now: int, last: Stamps, t: Task): bool {
    now - last.Get(t) >= CheckInterval(t)
  }

  /** `is_tweet_recent`: created at most `maxAgeMinutes` before `now`. */
  function IsTweetRecent(createdAt: int, now: int, maxAgeMinutes: int): bool {
    now - createdAt <= maxAgeMinutes * 60
  }

  /** `acquire` on limiter `q`: the clock moves to the admission instant, which the deque records. */
  function Admit(s: Bot, q: Quota): (r: Bot)
    ensures r.now >= s.now
    ensures r.seen == s.seen && r.last == s.last && r.acts == s.acts
  {
    var t := AdmittedAt(s.logs.Get(q), Capacity(q), QuotaWindow, s.now);
    s.(now := t, logs := s.logs.Set(q, Pruned(s.logs.Get(q), s.now - QuotaWindow) + [t]))
  }

  function Sleep(s: Bot, seconds: int): Bot {
    s.(now := s.now + seconds)
  }

  /** The `i`-th fetch of a sequence of fetches; one beyond the script yields nothing. */
  function FeedAt(feeds: seq<seq<Tweet>>, i: nat): seq<Tweet> {
    if i < |feeds| then feeds[i] else []
  }

  /** `xs[:n]`. */
  function Take<T>(xs: seq<T>, n: nat): (r: seq<T>)
    ensures |r| == (if |xs| <= n then |xs| else n) && r == xs[..|r|]
  {
    if |xs| <= n then xs else xs[..n]
  }

  /** A run that ended normally records the time it ended as the task's stamp. */
  function Stamp(o: Outcome, t: Task): Outcome {
    match o
    case Done(b) => Done(b.(last := b.last.Set(t, b.now)))
    case Raised(b) => o
  }

  /** The loop of `process_mentions` from the `i`-th mention on. */
  function MentionsFrom(ms: seq<Tweet>, i: nat, s: Bot): Outcome
    decreases |ms| - i
  {
    if i >= |ms| then Done(s)
    else
      var m := ms[i];
      if m.id.None? then Raised(s)
      else if m.id.value in s.seen then MentionsFrom(ms, i + 1, s)
      else if m.createdAt.None? then Raised(s)
      else if !IsTweetRecent(m.createdAt.value, s.now, RecentMinutes) then MentionsFrom(ms, i + 1, s)
      else
        var s' := s.(acts := s.acts + [Reply(m, FromMention)], seen := s.seen + {m.id.value});
        MentionsFrom(ms, i + 1, Sleep(s', MentionPause))
  }

  /** `process_mentions`, given what `get_mentions` returns. */
  function ProcessMentionsRun(s: Bot, fetched: seq<Tweet>): Outcome {
    if s.now - s.last.Get(MentionsTask) < InnerGuard(MentionsTask) then Done(s)
    else Stamp(MentionsFrom(Take(fetched, MentionsPerRun), 0, Admit(s, MentionsQuota)), MentionsTask)
  }

  /** What `process_accounts` does with one recent, unseen tweet of `account`. */
  function HandleAccountTweet(t: Tweet, account: string, cfg: Settings, s: Bot): Bot
    requires t.id.Some?
  {
    var s1 := if account in cfg.monitor then s.(acts := s.acts + [Reply(t, FromAccount(account))]) else s;
    var s2 := if account in cfg.retweet then
                var a := Admit(s1, RetweetQuota);
                a.(acts := a.acts + [Retweet(t.id.value, account)])
              else s1;
    Sleep(s2.(seen := s2.seen + {t.id.value}), AccountTweetPause)
  }

  /** The loop over one account's tweets, from the `i`-th on; `cutoff` is two hours before the fetch. */
  function AccountTweetsFrom(ts: seq<Tweet>, i: nat, account: string, cutoff: int, cfg: Settings, s: Bot): Outcome
    decreases |ts| - i
  {
    if i >= |ts| then Done(s)
    else
      var t := ts[i];
      if t.id.None? then Raised(s)
      else if t.id.value in s.seen then AccountTweetsFrom(ts, i + 1, account, cutoff, cfg, s)
      else if t.createdAt.None? then Raised(s)
      else if t.createdAt.value <= cutoff then AccountTweetsFrom(ts, i + 1, account, cutoff, cfg, s)
      else AccountTweetsFrom(ts, i + 1, account, cutoff, cfg, HandleAccountTweet(t, account, cfg, s))
  }

  /**
   * One account in `process_accounts`: acquire, fetch, then its tweets.  An
   * exception inside the tweets ends the account; both ways the bot sleeps
   * 30 seconds.  An account without tweets is skipped without sleeping.
   */
  function AccountStep(account: string, tweets: seq<Tweet>, cfg: Settings, s: Bot): Bot {
    var a := Admit(s, UserTweetsQuota);
    if tweets == [] then a
    else Sleep(AccountTweetsFrom(tweets, 0, account, a.now - AccountLookback, cfg, a).bot, AccountPause)
  }

  /** The loop of `process_accounts` from the `i`-th account on. */
  function AccountsFrom(accounts: seq<string>, feeds: seq<seq<Tweet>>, i: nat, cfg: Settings, s: Bot): Bot
    decreases |accounts| - i
  {
    if i >= |accounts| then s
    else AccountsFrom(accounts, feeds, i + 1, cfg, AccountStep(accounts[i], FeedAt(feeds, i), cfg, s))
  }

  /** `process_accounts`, given what the `get_user_tweets` calls return; it never raises. */
  function ProcessAccountsRun(s: Bot, feeds: seq<seq<Tweet>>, cfg: Settings): Bot {
    if s.now - s.last.Get(AccountsTask) < InnerGuard(AccountsTask) then s
    else
      var b := AccountsFrom(cfg.monitor + cfg.retweet, feeds, 0, cfg, s);
      b.(last := b.last.Set(AccountsTask, b.now))
  }

  /** `tweet.get('username', '')`, once a `None` value has been ruled out. */
  function AuthorName(t: Tweet): string {
    match t.username
    case Value(u) => u
    case _ => ""
  }

  /** The tweet's username contains a monitored account's name, ignoring case. */
  predicate ByMonitored(t: Tweet, monitor: seq<string>) {
    exists k :: 0 <= k < |monitor| && Text.Contains(Text.Lower(AuthorName(t)), Text.Lower(monitor[k]))
  }

  /** `metrics.get('like_count', 0)` when `get_tweet_metrics` returned non-empty metrics. */
  function LikeCount(metrics: map<TweetId, map<string, int>>, id: TweetId): Option<int> {
    if id in metrics && metrics[id] != map[] then
      Some(if "like_count" in metrics[id] then metrics[id]["like_count"] else 0)
    else None
  }

  /** The like threshold of `process_hashtags`. */
  predicate Liked(metrics: map<TweetId, map<string, int>>, id: TweetId, minLikes: int) {
    LikeCount(metrics, id).Some? && LikeCount(metrics, id).value >= minLikes
  }

  /**
   * The loop over one hashtag's search results from the `i`-th on, with
   * `count` tweets processed so far.  It stops once `HashtagCap` are.
   */
  function HashtagTweetsFrom(ts: seq<Tweet>, i: nat, hashtag: string, count: nat, cfg: Settings,
                             metrics: map<TweetId, map<string, int>>, s: Bot): Outcome
    decreases |ts| - i
  {
    if i >= |ts| then Done(s)
    else
      var t := ts[i];
      if t.id.None? then Raised(s)
      else if t.id.value in s.seen then HashtagTweetsFrom(ts, i + 1, hashtag, count, cfg, metrics, s)
      else if cfg.monitor != [] && t.username.Null? then Raised(s)
      else if ByMonitored(t, cfg.monitor) then HashtagTweetsFrom(ts, i + 1, hashtag, count, cfg, metrics, s)
      else
        var a := Admit(s, UserTweetsQuota);
        var hit := Liked(metrics, t.id.value, cfg.minLikes);
        var b := if hit then a.(acts := a.acts + [Reply(t, FromHashtag(hashtag))], seen := a.seen + {t.id.value}) else a;
        var c := if hit then count + 1 else count;
        if c >= HashtagCap then Done(b)
        else HashtagTweetsFrom(ts, i + 1, hashtag, c, cfg, metrics, Sleep(b, HashtagTweetPause))
  }

  /** One hashtag in `process_hashtags`: acquire, search, go through the results, then sleep 10 seconds unless it raised. */
  function HashtagStep(hashtag: string, tweets: seq<Tweet>, cfg: Settings, metrics: map<TweetId, map<string, int>>, s: Bot): Outcome {
    match HashtagTweetsFrom(tweets, 0, hashtag, 0, cfg, metrics, Admit(s, SearchQuota))
    case Raised(b) => Raised(b)
    case Done(b) => Done(Sleep(b, HashtagPause))
  }

  /** The loop of `process_hashtags` from the `i`-th hashtag on; an exception escapes it. */
  function HashtagsFrom(tags: seq<string>, searches: seq<seq<Tweet>>, i: nat, cfg: Settings,
                        metrics: map<TweetId, map<string, int>>, s: Bot): Outcome
    decreases |tags| - i
  {
    if i >= |tags| then Done(s)
    else
      match HashtagStep(tags[i], FeedAt(searches, i), cfg, metrics, s)
      case Raised(b) => Raised(b)
      case Done(b) => HashtagsFrom(tags, searches, i + 1, cfg, metrics, b)
  }

  /** `process_hashtags`, given what the `search_tweets` calls return and the metrics per tweet. */
  function ProcessHashtagsRun(s: Bot, searches: seq<seq<Tweet>>, metrics: map<TweetId, map<string, int>>, cfg: Settings): Outcome {
    if s.now - s.last.Get(HashtagsTask) < InnerGuard(HashtagsTask) then Done(s)
    else Stamp(HashtagsFrom(cfg.hashtags, searches, 0, cfg, metrics, s), HashtagsTask)
  }

  /** The ids `cleanup_processed_tweets` keeps: those less than an hour old, reading the id as an instant. */
  function Cleaned(seen: set<TweetId>, now: int): set<TweetId> {
    set id | id in seen && now - id < Retention
  }

  /** The mentions task in `main`'s loop: run when due, stamped when it returns. */
  function MentionsStage(s: Bot, f: Feeds): Outcome {
    if ShouldProcess(s.now, s.last, MentionsTask) then Stamp(ProcessMentionsRun(s, f.mentions), MentionsTask) else Done(s)
  }

  /** The accounts task in `main`'s loop: run when due, stamped when it returns. */
  function AccountsStage(s: Bot, f: Feeds, cfg: Settings): Bot {
    if ShouldProcess(s.now, s.last, AccountsTask)
    then Stamp(Done(ProcessAccountsRun(s, f.accountTweets, cfg)), AccountsTask).bot
    else s
  }

  /** The hashtags task in `main`'s loop: run when due, stamped when it returns. */
  function HashtagsStage(s: Bot, f: Feeds, cfg: Settings): Outcome {
    if ShouldProcess(s.now, s.last, HashtagsTask)
    then Stamp(ProcessHashtagsRun(s, f.searches, f.metrics, cfg), HashtagsTask)
    else Done(s)
  }

  /**
   * One pass of `main`'s loop.  The tasks run in order, each only when due,
   * and each is stamped after it returns.  An exception from a task skips the
   * rest of the pass, the cleanup included, and sleeps `errorDelay` instead
   * of the loop's 60 seconds.
   */
  function TickRun(s: Bot, f: Feeds, cfg: Settings): Outcome {
    var o1 := MentionsStage(s, f);
    if o1.Raised? then Raised(Sleep(o1.bot, cfg.errorDelay))
    else
      var o3 := HashtagsStage(AccountsStage(o1.bot, f, cfg), f, cfg);
      if o3.Raised? then Raised(Sleep(o3.bot, cfg.errorDelay))
      else Done(Sleep(o3.bot.(seen := Cleaned(o3.bot.seen, o3.bot.now)), LoopPause))
  }

  // ---------------------------------------------------------------- the bot

  class TwitterBot {
    const settings: Settings
    /** The deques of `user_tweets_limiter`, `mentions_limiter`, `search_limiter` and `retweet_limiter`. */
    var limiters: Logs
    /** `processed_tweets`. */
    var processedTweets: set<TweetId>
    /** `last_processed_time`. */
    var lastProcessed: Stamps
    /** The clock. */
    var now: int
    /** Every tweet handed to `process_mention` and every `retweet` call so far. */
    var actions: seq<Action>

    function State(): Bot
      reads this
    {
      Bot(now, processedTweets, lastProcessed, limiters, actions)
    }

    /** `TwitterBot.__init__`, with the clock reading `start`. */
    constructor (settings: Settings, start: int)
      ensures this.settings == settings
      ensures State() == Bot(start, {}, Stamps(0, 0, 0), Logs([], [], [], []), [])
    {
      this.settings := settings;
      limiters := Logs([], [], [], []);
      processedTweets := {};
      lastProcessed := Stamps(0, 0, 0);
      now := start;
      actions := [];
    }

    /** `await limiter.acquire()` on limiter `q`: the clock advances by the limiter's sleep. */
    method Acquire(q: Quota)
      modifies this
      ensures State() == Admit(old(State()), q)
    {
      var log := limiters.Get(q);
      var t := AdmittedAt(log, Capacity(q), QuotaWindow, now);
      limiters := limiters.Set(q, Pruned(log, now - QuotaWindow) + [t]);
      now := t;
    }

    /** `process_mentions`, given what `get_mentions` returns; `raised` says whether an exception escapes. */
    method ProcessMentions(fetched: seq<Tweet>) returns (raised: bool)
      modifies this
      ensures var o := ProcessMentionsRun(old(State()), fetched);
              raised == o.Raised? && State() == o.bot
    {
      if now - lastProcessed.Get(MentionsTask) < InnerGuard(MentionsTask) {
        return false;
      }
      Acquire(MentionsQuota);
      var mentions := Take(fetched, MentionsPerRun);
      ghost var start := State();
      for i := 0 to |mentions|
        invariant MentionsFrom(mentions, 0, start) == MentionsFrom(mentions, i, State())
      {
        var m := mentions[i];
        if m.id.None? {
          return true;
        }
        if m.id.value !in processedTweets {
          if m.createdAt.None? {
            return true;
          }
          if IsTweetRecent(m.createdAt.value, now, RecentMinutes) {
            actions := actions + [Reply(m, FromMention)];
            processedTweets := processedTweets + {m.id.value};
            now := now + MentionPause;
          }
        }
      }
      lastProcessed := lastProcessed.Set(MentionsTask, now);
      return false;
    }

    /** A recent, unseen tweet of `account`: reply if monitored, retweet if a retweet target, then mark it seen. */
    method HandleTweet(t: Tweet, account: string)
      requires t.id.Some?
      modifies this
      ensures State() == HandleAccountTweet(t, account, settings, old(State()))
    {
      if account in settings.monitor {
        actions := actions + [Reply(t, FromAccount(account))];
      }
      if account in settings.retweet {
        Acquire(RetweetQuota);
        actions := actions + [Retweet(t.id.value, account)];
      }
      processedTweets := processedTweets + {t.id.value};
      now := now + AccountTweetPause;
    }

    /** The body of the `try` for one account: its tweets, from the first on. */
    method ProcessAccountTweets(tweets: seq<Tweet>, account: string, cutoff: int) returns (raised: bool)
      modifies this
      ensures var o := AccountTweetsFrom(tweets, 0, account, cutoff, settings, old(State()));
              raised == o.Raised? && State() == o.bot
    {
      ghost var start := State();
      for i := 0 to |tweets|
        invariant AccountTweetsFrom(tweets, 0, account, cutoff, settings, start) == AccountTweetsFrom(tweets, i, account, cutoff, settings, State())
      {
        var t := tweets[i];
        if t.id.None? {
          return true;
        }
        if t.id.value in processedTweets {
          continue;
        }
        if t.createdAt.None? {
          return true;
        }
        if t.createdAt.value <= cutoff {
          continue;
        }
        HandleTweet(t, account);
      }
      return false;
    }

    /** One pass of `process_accounts`' loop; `tweets` is what `get_user_tweets` returns. */
    method ProcessAccount(account: string, tweets: seq<Tweet>)
      modifies this
      ensures State() == AccountStep(account, tweets, settings, old(State()))
    {
      Acquire(UserTweetsQuota);
      if tweets == [] {
        return;
      }
      var _ := ProcessAccountTweets(tweets, account, now - AccountLookback);
      now := now + AccountPause;
    }

    /** `process_accounts`, given what the `get_user_tweets` calls return, in order. */
    method ProcessAccounts(feeds: seq<seq<Tweet>>)
      modifies this
      ensures State() == ProcessAccountsRun(old(State()), feeds, settings)
    {
      if now - lastProcessed.Get(AccountsTask) < InnerGuard(AccountsTask) {
        return;
      }
      var accounts := settings.monitor + settings.retweet;
      ghost var start := State();
      for i := 0 to |accounts|
        invariant AccountsFrom(accounts, feeds, 0, settings, start) == AccountsFrom(accounts, feeds, i, settings, State())
      {
        ProcessAccount(accounts[i], FeedAt(feeds, i));
      }
      lastProcessed := lastProcessed.Set(AccountsTask, now);
    }

    /** The loop over one hashtag's search results. */
    method ProcessHashtagTweets(tweets: seq<Tweet>, hashtag: string, metrics: map<TweetId, map<string, int>>) returns (raised: bool)
      modifies this
      ensures var o := HashtagTweetsFrom(tweets, 0, hashtag, 0, settings, metrics, old(State()));
              raised == o.Raised? && State() == o.bot
    {
      ghost var start := State();
      var processedCount: nat := 0;
      for i := 0 to |tweets|
        invariant processedCount < HashtagCap
        invariant HashtagTweetsFrom(tweets, 0, hashtag, 0, settings, metrics, start)
               == HashtagTweetsFrom(tweets, i, hashtag, processedCount, settings, metrics, State())
      {
        var t := tweets[i];
        if t.id.None? {
          return true;
        }
        if t.id.value in processedTweets {
          continue;
        }
        if settings.monitor != [] && t.username.Null? {
          return true;
        }
        if ByMonitored(t, settings.monitor) {
          continue;
        }
        Acquire(UserTweetsQuota);
        if Liked(metrics, t.id.value, settings.minLikes) {
          actions := actions + [Reply(t, FromHashtag(hashtag))];
          processedTweets := processedTweets + {t.id.value};
          processedCount := processedCount + 1;
        }
        if processedCount >= HashtagCap {
          return false;
        }
        now := now + HashtagTweetPause;
      }
      return false;
    }

    /** One pass of `process_hashtags`' loop; `tweets` is what `search_tweets` returns. */
    method ProcessHashtag(hashtag: string, tweets: seq<Tweet>, metrics: map<TweetId, map<string, int>>) returns (raised: bool)
      modifies this
      ensures var o := HashtagStep(hashtag, tweets, settings, metrics, old(State()));
              raised == o.Raised? && State() == o.bot
    {
      Acquire(SearchQuota);
      raised := ProcessHashtagTweets(tweets, hashtag, metrics);
      if !raised {
        now := now + HashtagPause;
      }
    }

    /** The loop of `process_hashtags` over the configured hashtags; `raised` says whether an exception escapes it. */
    method HashtagsLoop(searches: seq<seq<Tweet>>, metrics: map<TweetId, map<string, int>>) returns (raised: bool)
      modifies this
      ensures var o := HashtagsFrom(settings.hashtags, searches, 0, settings, metrics, old(State()));
              raised == o.Raised? && State() == o.bot
    {
      var tags := settings.hashtags;
      ghost var start := State();
      for i := 0 to |tags|
        invariant HashtagsFrom(tags, searches, 0, settings, metrics, start) == HashtagsFrom(tags, searches, i, settings, metrics, State())
      {
        raised := ProcessHashtag(tags[i], FeedAt(searches, i), metrics);
        if raised {
          return;
        }
      }
      return false;
    }

    /** `process_hashtags`, given what the `search_tweets` calls return and the metrics per tweet. */
    method ProcessHashtags(searches: seq<seq<Tweet>>, metrics: map<TweetId, map<string, int>>) returns (raised: bool)
      modifies this
      ensures var o := ProcessHashtagsRun(old(State()), searches, metrics, settings);
              raised == o.Raised? && State() == o.bot
    {
      if now - lastProcessed.Get(HashtagsTask) < InnerGuard(HashtagsTask) {
        return false;
      }
      raised := HashtagsLoop(searches, metrics);
      if !raised {
        lastProcessed := lastProcessed.Set(HashtagsTask, now);
      }
    }

    /** `cleanup_processed_tweets`. */
    method CleanupProcessedTweets()
      modifies this
      ensures State() == old(State()).(seen := Cleaned(old(processedTweets), old(now)))
    {
      processedTweets := set id | id in processedTweets && now - id < Retention;
    }

    /** One pass of `main`'s loop, given what the bot's calls return in it. */
    method Tick(feeds: Feeds) returns (raised: bool)
      modifies this
      ensures var o := TickRun(old(State()), feeds, settings);
              raised == o.Raised? && State() == o.bot
    {
      if ShouldProcess(now, lastProcessed, MentionsTask) {
        raised := ProcessMentions(feeds.mentions);
        if raised {
          now := now + settings.errorDelay;
          return;
        }
        lastProcessed := lastProcessed.Set(MentionsTask, now);
      }
      if ShouldProcess(now, lastProcessed, AccountsTask) {
        ProcessAccounts(feeds.accountTweets);
        lastProcessed := lastProcessed.Set(AccountsTask, now);
      }
      if ShouldProcess(now, lastProcessed, HashtagsTask) {
        raised := ProcessHashtags(feeds.searches, feeds.metrics);
        if raised {
          now := now + settings.errorDelay;
          return;
        }
        lastProcessed := lastProcessed.Set(HashtagsTask, now);
      }
      CleanupProcessedTweets();
      now := now + LoopPause;
      return false;
    }
  }
}
