/**
 * What the scheduler of main.py promises, proved about the functions of
 * module Scheduler (which the methods of `TwitterBot` are proved to follow).
 */
module SchedulerProofs {
  import opened Wrappers
  import opened Tweets
  import opened Scheduler
  import Text

  // ------------------------------------------------------------ bookkeeping

  /** The ids the actions were about. */
  function Subjects(acts: seq<Action>): set<TweetId> {
    if acts == [] then {}
    else
      var x := acts[|acts| - 1];
      Subjects(acts[..|acts| - 1]) + (if x.Subject().Some? then {x.Subject().value} else {})
  }

  lemma {:induction false} SubjectsAppend(xs: seq<Action>, ys: seq<Action>)
    ensures Subjects(xs + ys) == Subjects(xs) + Subjects(ys)
    decreases |ys|
  {
    if ys == [] {
      assert xs + ys == xs;
    } else {
      var n := |ys| - 1;
      assert (xs + ys)[..|xs + ys| - 1] == xs + ys[..n];
      assert (xs + ys)[|xs + ys| - 1] == ys[n];
      SubjectsAppend(xs, ys[..n]);
    }
  }

  /** An id is among the subjects only if some action is about it. */
  lemma {:induction false} SubjectsWitness(acts: seq<Action>, id: TweetId) returns (k: nat)
    requires id in Subjects(acts)
    ensures k < |acts| && acts[k].Subject() == Some(id)
    decreases |acts|
  {
    var n := |acts| - 1;
    if acts[n].Subject() == Some(id) {
      k := n;
    } else {
      k := SubjectsWitness(acts[..n], id);
    }
  }

  /** Every action is about a tweet that was not yet seen. */
  predicate Fresh(acts: seq<Action>, seen: set<TweetId>) {
    forall k :: 0 <= k < |acts| ==> acts[k].Subject().Some? && acts[k].Subject().value !in seen
  }

  /** The actions `r` added to those of `s`. */
  function Added(s: Bot, r: Bot): seq<Action>
    requires |s.acts| <= |r.acts|
  {
    r.acts[|s.acts|..]
  }

  /**
   * `r` comes after `s` in one task's run: actions are only appended, each
   * about a tweet not seen at `s`; the seen set grows by exactly the tweets
   * acted upon; the clock does not run backwards.
   */
  ghost predicate Follows(s: Bot, r: Bot) {
    && |s.acts| <= |r.acts| && r.acts[..|s.acts|] == s.acts
    && s.now <= r.now
    && Fresh(Added(s, r), s.seen)
    && r.seen == s.seen + Subjects(Added(s, r))
  }

  lemma FollowsRefl(s: Bot, r: Bot)
    requires r.acts == s.acts && r.seen == s.seen && s.now <= r.now
    ensures Follows(s, r)
  {
    assert Added(s, r) == [];
  }

  lemma FollowsTrans(a: Bot, b: Bot, c: Bot)
    requires Follows(a, b) && Follows(b, c)
    ensures Follows(a, c)
  {
    var x := Added(a, b);
    var y := Added(b, c);
    assert c.acts == b.acts + y;
    assert c.acts[..|a.acts|] == a.acts;
    assert Added(a, c) == x + y;
    SubjectsAppend(x, y);
  }

  /** A step that acts on one unseen tweet with at least one action and marks it seen. */
  lemma FollowsMark(s: Bot, xs: seq<Action>, id: TweetId, r: Bot)
    requires 0 < |xs| && forall k :: 0 <= k < |xs| ==> xs[k].Subject() == Some(id)
    requires id !in s.seen
    requires r.acts == s.acts + xs && r.seen == s.seen + {id} && s.now <= r.now
    ensures Follows(s, r)
  {
    assert Added(s, r) == xs;
    SubjectsOfOne(xs, id);
  }

  lemma {:induction false} SubjectsOfOne(xs: seq<Action>, id: TweetId)
    requires 0 < |xs| && forall k :: 0 <= k < |xs| ==> xs[k].Subject() == Some(id)
    ensures Subjects(xs) == {id}
    decreases |xs|
  {
    if |xs| > 1 {
      SubjectsOfOne(xs[..|xs| - 1], id);
    } else {
      assert xs[..0] == [];
    }
  }

  // --------------------------------------------------------------- the gates

  /**
   * Whenever the loop's gate lets a task through, the task's own "too soon"
   * guard lets it through too: in the loop the inner guards never fire.
   */
  lemma GateImpliesInnerGuard(now: int, last: Stamps, t: Task)
    requires ShouldProcess(now, last, t)
    ensures now - last.Get(t) >= InnerGuard(t)
  {
  }

  /** A task called too soon after it last ran changes nothing at all. */
  lemma TooSoonIsNoOp(s: Bot, f: Feeds, cfg: Settings)
    ensures s.now - s.last.mentions < 180 ==> ProcessMentionsRun(s, f.mentions) == Done(s)
    ensures s.now - s.last.accounts < 900 ==> ProcessAccountsRun(s, f.accountTweets, cfg) == s
    ensures s.now - s.last.hashtags < 900 ==> ProcessHashtagsRun(s, f.searches, f.metrics, cfg) == Done(s)
  {
  }

  // ---------------------------------------------------------------- mentions

  /** A reply `process_mentions` may make: to one of `ms`, created no earlier than `earliest`. */
  predicate MentionAct(x: Action, ms: seq<Tweet>, earliest: int) {
    x.Reply? && x.origin == FromMention && x.tweet in ms
    && x.tweet.createdAt.Some? && x.tweet.createdAt.value >= earliest
  }

  lemma {:induction false} MentionsSound(ms: seq<Tweet>, i: nat, s: Bot)
    requires i <= |ms|
    ensures var r := MentionsFrom(ms, i, s).bot;
            && Follows(s, r) && r.last == s.last && r.logs == s.logs
            && |r.acts| <= |s.acts| + (|ms| - i)
            && forall k :: |s.acts| <= k < |r.acts| ==> MentionAct(r.acts[k], ms, s.now - RecentMinutes * 60)
    decreases |ms| - i
  {
    var o := MentionsFrom(ms, i, s);
    if i == |ms| || ms[i].id.None? || (ms[i].id.value !in s.seen && ms[i].createdAt.None?) {
      FollowsRefl(s, o.bot);
    } else if ms[i].id.value in s.seen || !IsTweetRecent(ms[i].createdAt.value, s.now, RecentMinutes) {
      MentionsSound(ms, i + 1, s);
    } else {
      var m := ms[i];
      var s' := Sleep(s.(acts := s.acts + [Reply(m, FromMention)], seen := s.seen + {m.id.value}), MentionPause);
      MentionsSound(ms, i + 1, s');
      FollowsMark(s, [Reply(m, FromMention)], m.id.value, s');
      var r := o.bot;
      FollowsTrans(s, s', r);
      assert r.acts[|s.acts|] == s'.acts[|s.acts|];
    }
  }

  lemma {:induction false} MentionsComplete(ms: seq<Tweet>, i: nat, s: Bot)
    requires i <= |ms| && MentionsFrom(ms, i, s).Done?
    ensures var r := MentionsFrom(ms, i, s).bot;
            forall j :: (i <= j < |ms| && ms[j].id.Some? && ms[j].createdAt.Some?
                         && IsTweetRecent(ms[j].createdAt.value, r.now, RecentMinutes)) ==> ms[j].id.value in r.seen
    decreases |ms| - i
  {
    if i < |ms| {
      var m := ms[i];
      var r := MentionsFrom(ms, i, s).bot;
      if m.id.value in s.seen || !IsTweetRecent(m.createdAt.value, s.now, RecentMinutes) {
        MentionsComplete(ms, i + 1, s);
        MentionsSound(ms, i + 1, s);
      } else {
        var s' := Sleep(s.(acts := s.acts + [Reply(m, FromMention)], seen := s.seen + {m.id.value}), MentionPause);
        MentionsComplete(ms, i + 1, s');
        MentionsSound(ms, i + 1, s');
      }
    }
  }

  /**
   * `process_mentions` once due: it looks at the first three mentions only,
   * replies only to unseen ones created at most five minutes before the
   * moment it looks at them, marks exactly those seen, and stamps the task
   * when it finishes.  When it finishes, every one of the first three that
   * has an id and is still recent at the end has been handled.
   */
  lemma ProcessMentionsEffect(s: Bot, fetched: seq<Tweet>)
    requires s.now - s.last.mentions >= 180
    ensures var o := ProcessMentionsRun(s, fetched);
            var r := o.bot;
            var first := Take(fetched, MentionsPerRun);
            && Follows(s, r)
            && |r.acts| <= |s.acts| + MentionsPerRun
            && (forall k :: |s.acts| <= k < |r.acts| ==> MentionAct(r.acts[k], first, s.now - RecentMinutes * 60))
            && r.last == (if o.Done? then s.last.Set(MentionsTask, r.now) else s.last)
            && (o.Done? ==> forall m :: (m in first && m.id.Some? && m.createdAt.Some?
                                        && IsTweetRecent(m.createdAt.value, r.now, RecentMinutes)) ==> m.id.value in r.seen)
  {
    var a := Admit(s, MentionsQuota);
    var first := Take(fetched, MentionsPerRun);
    FollowsRefl(s, a);
    MentionsSound(first, 0, a);
    FollowsTrans(s, a, MentionsFrom(first, 0, a).bot);
    if MentionsFrom(first, 0, a).Done? {
      MentionsComplete(first, 0, a);
    }
  }

  // ---------------------------------------------------------------- accounts

  /** An action `process_accounts` may take: reply to a monitored account's tweet newer than `cutoff`, or retweet for a retweet target. */
  predicate AccountAct(x: Action, cfg: Settings, cutoff: int) {
    || (x.Reply? && x.origin.FromAccount? && x.origin.account in cfg.monitor
        && x.tweet.createdAt.Some? && x.tweet.createdAt.value > cutoff)
    || (x.Retweet? && x.account in cfg.retweet)
  }

  lemma HandleSound(t: Tweet, account: string, cutoff: int, cfg: Settings, s: Bot)
    requires t.id.Some? && t.id.value !in s.seen
    requires t.createdAt.Some? && t.createdAt.value > cutoff
    requires account in cfg.monitor || account in cfg.retweet
    ensures var r := HandleAccountTweet(t, account, cfg, s);
            && Follows(s, r) && r.last == s.last
            && t.id.value in r.seen
            && forall k :: |s.acts| <= k < |r.acts| ==> AccountAct(r.acts[k], cfg, cutoff)
  ensures var r := HandleAccountTweet(t, account, cfg, s);
          && (account in cfg.monitor ==> Reply(t, FromAccount(account)) in r.acts[|s.acts|..])
          && (account in cfg.retweet ==> Retweet(t.id.value, account) in r.acts[|s.acts|..])
  ensures var r := HandleAccountTweet(t, account, cfg, s);
          && r.acts[|s.acts|..] == (if account in cfg.monitor then [Reply(t, FromAccount(account))] else [])
                                   + (if account in cfg.retweet then [Retweet(t.id.value, account)] else [])
          && r.seen == s.seen + {t.id.value}
  {
    var r := HandleAccountTweet(t, account, cfg, s);
    var xs := (if account in cfg.monitor then [Reply(t, FromAccount(account))] else [])
            + (if account in cfg.retweet then [Retweet(t.id.value, account)] else []);
    assert r.acts == s.acts + xs;
    assert r.acts[|s.acts|..] == xs;
    FollowsMark(s, xs, t.id.value, r);
  }

  lemma {:induction false} AccountTweetsSound(ts: seq<Tweet>, i: nat, account: string, cutoff: int, cfg: Settings, s: Bot)
    requires account in cfg.monitor || account in cfg.retweet
    ensures var r := AccountTweetsFrom(ts, i, account, cutoff, cfg, s).bot;
            && Follows(s, r) && r.last == s.last
            && forall k :: |s.acts| <= k < |r.acts| ==> AccountAct(r.acts[k], cfg, cutoff)
    decreases |ts| - i
  {
    var o := AccountTweetsFrom(ts, i, account, cutoff, cfg, s);
    if i >= |ts| || ts[i].id.None? || (ts[i].id.value !in s.seen && ts[i].createdAt.None?) {
      FollowsRefl(s, o.bot);
    } else if ts[i].id.value in s.seen || ts[i].createdAt.value <= cutoff {
      AccountTweetsSound(ts, i + 1, account, cutoff, cfg, s);
    } else {
      var s' := HandleAccountTweet(ts[i], account, cfg, s);
      HandleSound(ts[i], account, cutoff, cfg, s);
      AccountTweetsSound(ts, i + 1, account, cutoff, cfg, s');
      FollowsTrans(s, s', o.bot);
      forall k | |s.acts| <= k < |o.bot.acts|
        ensures AccountAct(o.bot.acts[k], cfg, cutoff)
      {
        if k < |s'.acts| {
          assert o.bot.acts[k] == s'.acts[k];
        }
      }
    }
  }

  /** When an account's tweets are all gone through, every unseen one newer than the cutoff has been marked. */
  lemma {:induction false} AccountTweetsComplete(ts: seq<Tweet>, i: nat, account: string, cutoff: int, cfg: Settings, s: Bot)
    requires account in cfg.monitor || account in cfg.retweet
    requires AccountTweetsFrom(ts, i, account, cutoff, cfg, s).Done?
    ensures var r := AccountTweetsFrom(ts, i, account, cutoff, cfg, s).bot;
            forall j :: i <= j < |ts| && ts[j].id.Some? && ts[j].createdAt.Some? && ts[j].createdAt.value > cutoff
                        ==> ts[j].id.value in r.seen
    decreases |ts| - i
  {
    if i < |ts| {
      var t := ts[i];
      if t.id.value in s.seen || t.createdAt.value <= cutoff {
        AccountTweetsComplete(ts, i + 1, account, cutoff, cfg, s);
        AccountTweetsSound(ts, i + 1, account, cutoff, cfg, s);
      } else {
        var s' := HandleAccountTweet(t, account, cfg, s);
        HandleSound(t, account, cutoff, cfg, s);
        AccountTweetsComplete(ts, i + 1, account, cutoff, cfg, s');
        AccountTweetsSound(ts, i + 1, account, cutoff, cfg, s');
      }
    }
  }

  /** A fetched timeline whose every tweet has an id and a creation time. */
  predicate WellFormedFeed(ts: seq<Tweet>) {
    forall j :: 0 <= j < |ts| ==> ts[j].id.Some? && ts[j].createdAt.Some?
  }

  /** Every fetched timeline is well formed. */
  predicate WellFormedFeeds(feeds: seq<seq<Tweet>>) {
    forall k, j :: 0 <= k < |feeds| && 0 <= j < |feeds[k]| ==> feeds[k][j].id.Some? && feeds[k][j].createdAt.Some?
  }

  /** Over a well-formed timeline the tweets loop never raises. */
  lemma {:induction false} AccountTweetsDone(ts: seq<Tweet>, i: nat, account: string, cutoff: int, cfg: Settings, s: Bot)
    requires WellFormedFeed(ts)
    ensures AccountTweetsFrom(ts, i, account, cutoff, cfg, s).Done?
    decreases |ts| - i
  {
    if i < |ts| {
      if ts[i].id.value in s.seen || ts[i].createdAt.value <= cutoff {
        AccountTweetsDone(ts, i + 1, account, cutoff, cfg, s);
      } else {
        AccountTweetsDone(ts, i + 1, account, cutoff, cfg, HandleAccountTweet(ts[i], account, cfg, s));
      }
    }
  }

  lemma {:induction false} AccountsSound(accounts: seq<string>, feeds: seq<seq<Tweet>>, i: nat, cfg: Settings, s: Bot)
    requires forall k :: 0 <= k < |accounts| ==> accounts[k] in cfg.monitor || accounts[k] in cfg.retweet
    ensures var r := AccountsFrom(accounts, feeds, i, cfg, s);
            && Follows(s, r) && r.last == s.last
            && forall k :: |s.acts| <= k < |r.acts| ==> AccountAct(r.acts[k], cfg, s.now - AccountLookback)
    decreases |accounts| - i
  {
    var r := AccountsFrom(accounts, feeds, i, cfg, s);
    if i >= |accounts| {
      FollowsRefl(s, r);
    } else {
      var a := Admit(s, UserTweetsQuota);
      var tweets := FeedAt(feeds, i);
      var s' := AccountStep(accounts[i], tweets, cfg, s);
      FollowsRefl(s, a);
      if tweets != [] {
        AccountTweetsSound(tweets, 0, accounts[i], a.now - AccountLookback, cfg, a);
        FollowsTrans(s, a, AccountTweetsFrom(tweets, 0, accounts[i], a.now - AccountLookback, cfg, a).bot);
      }
      assert Follows(s, s');
      AccountsSound(accounts, feeds, i + 1, cfg, s');
      FollowsTrans(s, s', r);
      forall k | |s.acts| <= k < |r.acts|
        ensures AccountAct(r.acts[k], cfg, s.now - AccountLookback)
      {
        if k < |s'.acts| {
          assert r.acts[k] == s'.acts[k];
        }
      }
    }
  }

  /**
   * Over well-formed timelines, every tweet of every account from the `i`-th
   * on that is newer than two hours before the loop ends has been seen by
   * then: each was answered or retweeted, now or earlier.
   */
  lemma {:induction false} AccountsComplete(accounts: seq<string>, feeds: seq<seq<Tweet>>, i: nat, cfg: Settings, s: Bot)
    requires forall k :: 0 <= k < |accounts| ==> accounts[k] in cfg.monitor || accounts[k] in cfg.retweet
    requires WellFormedFeeds(feeds)
    ensures var r := AccountsFrom(accounts, feeds, i, cfg, s);
            forall k, j :: i <= k < |accounts| && k < |feeds| && 0 <= j < |feeds[k]|
                           && feeds[k][j].createdAt.value > r.now - AccountLookback
                           ==> feeds[k][j].id.value in r.seen
    decreases |accounts| - i
  {
    if i < |accounts| {
      var r := AccountsFrom(accounts, feeds, i, cfg, s);
      var s' := AccountStep(accounts[i], FeedAt(feeds, i), cfg, s);
      assert r == AccountsFrom(accounts, feeds, i + 1, cfg, s');
      AccountsComplete(accounts, feeds, i + 1, cfg, s');
      AccountsSound(accounts, feeds, i + 1, cfg, s');
      if i < |feeds| && feeds[i] != [] {
        var a := Admit(s, UserTweetsQuota);
        var cutoff := a.now - AccountLookback;
        assert WellFormedFeed(feeds[i]);
        AccountTweetsDone(feeds[i], 0, accounts[i], cutoff, cfg, a);
        AccountTweetsComplete(feeds[i], 0, accounts[i], cutoff, cfg, a);
        AccountTweetsSound(feeds[i], 0, accounts[i], cutoff, cfg, a);
        assert s'.now >= a.now;
        forall j | 0 <= j < |feeds[i]| && feeds[i][j].createdAt.value > r.now - AccountLookback
          ensures feeds[i][j].id.value in r.seen
        {
          assert feeds[i][j].id.value in s'.seen;
        }
      }
    }
  }

  /**
   * `process_accounts` once due: every reply is to a monitored account's
   * tweet from the last two hours, every retweet is for a retweet target,
   * each about a tweet not seen before, and the seen set grows by exactly
   * the tweets acted upon (whatever the retweet's result); it stamps the task.
   */
  lemma ProcessAccountsEffect(s: Bot, feeds: seq<seq<Tweet>>, cfg: Settings)
    requires s.now - s.last.accounts >= 900
    ensures var r := ProcessAccountsRun(s, feeds, cfg);
            && Follows(s, r)
            && r.last == s.last.Set(AccountsTask, r.now)
            && forall k :: |s.acts| <= k < |r.acts| ==> AccountAct(r.acts[k], cfg, s.now - AccountLookback)
  ensures var r := ProcessAccountsRun(s, feeds, cfg);
          WellFormedFeeds(feeds) ==>
            forall k, j :: 0 <= k < |cfg.monitor| + |cfg.retweet| && k < |feeds| && 0 <= j < |feeds[k]|
                           && feeds[k][j].createdAt.value > r.now - AccountLookback
                           ==> feeds[k][j].id.value in r.seen
  {
    var accounts := cfg.monitor + cfg.retweet;
    assert forall k :: 0 <= k < |accounts| ==> accounts[k] in cfg.monitor || accounts[k] in cfg.retweet by {
      forall k | 0 <= k < |accounts|
        ensures accounts[k] in cfg.monitor || accounts[k] in cfg.retweet
      {
        if k >= |cfg.monitor| {
          assert accounts[k] == cfg.retweet[k - |cfg.monitor|];
        }
      }
    }
    AccountsSound(accounts, feeds, 0, cfg, s);
    if WellFormedFeeds(feeds) {
      AccountsComplete(accounts, feeds, 0, cfg, s);
    }
  }

  // ---------------------------------------------------------------- hashtags

  /** A reply `process_hashtags` may make: to a tweet found for one of `tags`, not by a monitored account, with enough likes. */
  predicate HashtagAct(x: Action, tags: seq<string>, cfg: Settings, metrics: map<TweetId, map<string, int>>) {
    x.Reply? && x.origin.FromHashtag? && x.origin.hashtag in tags
    && x.tweet.id.Some? && Liked(metrics, x.tweet.id.value, cfg.minLikes)
    && (cfg.monitor != [] ==> !x.tweet.username.Null?) && !ByMonitored(x.tweet, cfg.monitor)
  }

  lemma {:induction false} HashtagTweetsSound(ts: seq<Tweet>, i: nat, hashtag: string, count: nat, cfg: Settings,
                                              metrics: map<TweetId, map<string, int>>, s: Bot)
    requires count < HashtagCap
    ensures var r := HashtagTweetsFrom(ts, i, hashtag, count, cfg, metrics, s).bot;
            && Follows(s, r) && r.last == s.last
            && |r.acts| - |s.acts| + count <= HashtagCap
            && forall k :: |s.acts| <= k < |r.acts| ==> HashtagAct(r.acts[k], [hashtag], cfg, metrics)
    decreases |ts| - i
  {
    var o := HashtagTweetsFrom(ts, i, hashtag, count, cfg, metrics, s);
    if i >= |ts| || ts[i].id.None? || (ts[i].id.value !in s.seen && cfg.monitor != [] && ts[i].username.Null?) {
      FollowsRefl(s, o.bot);
    } else if ts[i].id.value in s.seen || ByMonitored(ts[i], cfg.monitor) {
      HashtagTweetsSound(ts, i + 1, hashtag, count, cfg, metrics, s);
    } else {
      var t := ts[i];
      var a := Admit(s, UserTweetsQuota);
      var hit := Liked(metrics, t.id.value, cfg.minLikes);
      var b := if hit then a.(acts := a.acts + [Reply(t, FromHashtag(hashtag))], seen := a.seen + {t.id.value}) else a;
      var c := if hit then count + 1 else count;
      HashtagVisitSound(t, hashtag, cfg, metrics, s);
      if c < HashtagCap {
        var b' := Sleep(b, HashtagTweetPause);
        HashtagTweetsSound(ts, i + 1, hashtag, c, cfg, metrics, b');
        FollowsTrans(s, b', o.bot);
        forall k | |s.acts| <= k < |o.bot.acts|
          ensures HashtagAct(o.bot.acts[k], [hashtag], cfg, metrics)
        {
          if k < |b'.acts| {
            assert o.bot.acts[k] == b'.acts[k];
          }
        }
      }
    }
  }

  /** One search result that passes the filters: acquire, then reply and mark it seen exactly when it has enough likes. */
  lemma HashtagVisitSound(t: Tweet, hashtag: string, cfg: Settings, metrics: map<TweetId, map<string, int>>, s: Bot)
    requires t.id.Some? && t.id.value !in s.seen
    requires !(cfg.monitor != [] && t.username.Null?) && !ByMonitored(t, cfg.monitor)
    ensures var a := Admit(s, UserTweetsQuota);
            var hit := Liked(metrics, t.id.value, cfg.minLikes);
            var b := if hit then a.(acts := a.acts + [Reply(t, FromHashtag(hashtag))], seen := a.seen + {t.id.value}) else a;
            && Follows(s, b) && b.last == s.last
            && |b.acts| == |s.acts| + (if hit then 1 else 0)
            && forall k :: |s.acts| <= k < |b.acts| ==> HashtagAct(b.acts[k], [hashtag], cfg, metrics)
  {
    var a := Admit(s, UserTweetsQuota);
    if Liked(metrics, t.id.value, cfg.minLikes) {
      FollowsMark(s, [Reply(t, FromHashtag(hashtag))], t.id.value, a.(acts := a.acts + [Reply(t, FromHashtag(hashtag))], seen := a.seen + {t.id.value}));
    } else {
      FollowsRefl(s, a);
    }
  }

  /**
   * The cap counts answered tweets only: when one hashtag's loop ends
   * normally having answered fewer than `HashtagCap` in all, every unseen
   * result from the `i`-th on that is not by a monitored account and has
   * enough likes has been answered, and so is seen.
   */
  lemma HashtagTweetsComplete(ts: seq<Tweet>, i: nat, hashtag: string, count: nat, cfg: Settings,
                              metrics: map<TweetId, map<string, int>>, s: Bot)
    requires count < HashtagCap
    requires HashtagTweetsFrom(ts, i, hashtag, count, cfg, metrics, s).Done?
    ensures var r := HashtagTweetsFrom(ts, i, hashtag, count, cfg, metrics, s).bot;
            |s.acts| <= |r.acts| &&
            (|r.acts| - |s.acts| + count < HashtagCap ==>
               forall j :: i <= j < |ts| && ts[j].id.Some? && !ByMonitored(ts[j], cfg.monitor)
                           && Liked(metrics, ts[j].id.value, cfg.minLikes)
                           ==> ts[j].id.value in r.seen)
  {
    var r := HashtagTweetsFrom(ts, i, hashtag, count, cfg, metrics, s).bot;
    HashtagTweetsGrow(ts, i, hashtag, count, cfg, metrics, s);
    if |r.acts| - |s.acts| + count < HashtagCap {
      forall j | i <= j < |ts| && ts[j].id.Some? && !ByMonitored(ts[j], cfg.monitor)
                 && Liked(metrics, ts[j].id.value, cfg.minLikes)
        ensures ts[j].id.value in r.seen
      {
        HashtagTweetSeen(ts, i, j, hashtag, count, cfg, metrics, s);
      }
    }
  }

  /** One hashtag's loop only adds actions and seen ids. */
  lemma HashtagTweetsGrow(ts: seq<Tweet>, i: nat, hashtag: string, count: nat, cfg: Settings,
                          metrics: map<TweetId, map<string, int>>, s: Bot)
    requires count < HashtagCap
    ensures var r := HashtagTweetsFrom(ts, i, hashtag, count, cfg, metrics, s).bot;
            |s.acts| <= |r.acts| && s.seen <= r.seen
  {
    HashtagTweetsSound(ts, i, hashtag, count, cfg, metrics, s);
  }

  /** `HashtagTweetsComplete` for the `j`-th result. */
  lemma {:induction false} HashtagTweetSeen(ts: seq<Tweet>, i: nat, j: nat, hashtag: string, count: nat, cfg: Settings,
                                            metrics: map<TweetId, map<string, int>>, s: Bot)
    requires count < HashtagCap && i <= j < |ts|
    requires ts[j].id.Some? && !ByMonitored(ts[j], cfg.monitor) && Liked(metrics, ts[j].id.value, cfg.minLikes)
    requires HashtagTweetsFrom(ts, i, hashtag, count, cfg, metrics, s).Done?
    requires |HashtagTweetsFrom(ts, i, hashtag, count, cfg, metrics, s).bot.acts| - |s.acts| + count < HashtagCap
    ensures ts[j].id.value in HashtagTweetsFrom(ts, i, hashtag, count, cfg, metrics, s).bot.seen
    decreases j - i
  {
    var o := HashtagTweetsFrom(ts, i, hashtag, count, cfg, metrics, s);
    var t := ts[i];
    HashtagTweetsGrow(ts, i, hashtag, count, cfg, metrics, s);
    if t.id.value in s.seen || ByMonitored(t, cfg.monitor) {
      if i < j {
        assert o == HashtagTweetsFrom(ts, i + 1, hashtag, count, cfg, metrics, s);
        HashtagTweetSeen(ts, i + 1, j, hashtag, count, cfg, metrics, s);
      }
    } else {
      var a := Admit(s, UserTweetsQuota);
      var hit := Liked(metrics, t.id.value, cfg.minLikes);
      var b := if hit then a.(acts := a.acts + [Reply(t, FromHashtag(hashtag))], seen := a.seen + {t.id.value}) else a;
      var c := if hit then count + 1 else count;
      if c < HashtagCap {
        var b' := Sleep(b, HashtagTweetPause);
        assert o == HashtagTweetsFrom(ts, i + 1, hashtag, c, cfg, metrics, b');
        HashtagTweetsGrow(ts, i + 1, hashtag, c, cfg, metrics, b');
        if i < j {
          HashtagTweetSeen(ts, i + 1, j, hashtag, c, cfg, metrics, b');
        }
      }
    }
  }

  /** The replies among `acts` to tweets found for `hashtag`. */
  function RepliesFor(acts: seq<Action>, hashtag: string): nat {
    if acts == [] then 0
    else
      var x := acts[|acts| - 1];
      RepliesFor(acts[..|acts| - 1], hashtag) + (if x.Reply? && x.origin.FromHashtag? && x.origin.hashtag == hashtag then 1 else 0)
  }

  lemma {:induction false} RepliesForAppend(xs: seq<Action>, ys: seq<Action>, hashtag: string)
    ensures RepliesFor(xs + ys, hashtag) == RepliesFor(xs, hashtag) + RepliesFor(ys, hashtag)
    decreases |ys|
  {
    if ys == [] {
      assert xs + ys == xs;
    } else {
      var init := ys[..|ys| - 1];
      assert (xs + ys)[..|xs + ys| - 1] == xs + init;
      assert (xs + ys)[|xs + ys| - 1] == ys[|ys| - 1];
      RepliesForAppend(xs, init, hashtag);
    }
  }

  /** Actions one hashtag's loop may add are all replies for that hashtag. */
  lemma {:induction false} RepliesForAll(xs: seq<Action>, hashtag: string, cfg: Settings, metrics: map<TweetId, map<string, int>>)
    requires forall k :: 0 <= k < |xs| ==> HashtagAct(xs[k], [hashtag], cfg, metrics)
    ensures RepliesFor(xs, hashtag) == |xs|
  {
    if xs != [] {
      RepliesForAll(xs[..|xs| - 1], hashtag, cfg, metrics);
    }
  }

  lemma {:induction false} HashtagsSound(tags: seq<string>, searches: seq<seq<Tweet>>, i: nat, cfg: Settings,
                                         metrics: map<TweetId, map<string, int>>, s: Bot)
    requires i <= |tags|
    ensures var r := HashtagsFrom(tags, searches, i, cfg, metrics, s).bot;
            && Follows(s, r) && r.last == s.last
            && |r.acts| <= |s.acts| + HashtagCap * (|tags| - i)
            && forall k :: |s.acts| <= k < |r.acts| ==> HashtagAct(r.acts[k], tags, cfg, metrics)
    decreases |tags| - i
  {
    var o := HashtagsFrom(tags, searches, i, cfg, metrics, s);
    if i == |tags| {
      FollowsRefl(s, o.bot);
    } else {
      var a := Admit(s, SearchQuota);
      var inner := HashtagTweetsFrom(FeedAt(searches, i), 0, tags[i], 0, cfg, metrics, a);
      var b := inner.bot;
      FollowsRefl(s, a);
      HashtagTweetsSound(FeedAt(searches, i), 0, tags[i], 0, cfg, metrics, a);
      FollowsTrans(s, a, b);
      assert forall k :: |s.acts| <= k < |b.acts| ==> HashtagAct(b.acts[k], tags, cfg, metrics);
      if inner.Done? {
        var b' := Sleep(b, HashtagPause);
        assert HashtagStep(tags[i], FeedAt(searches, i), cfg, metrics, s) == Done(b');
        HashtagsSound(tags, searches, i + 1, cfg, metrics, b');
        FollowsTrans(s, b', o.bot);
        forall k | |s.acts| <= k < |o.bot.acts|
          ensures HashtagAct(o.bot.acts[k], tags, cfg, metrics)
        {
          if k < |b'.acts| {
            assert o.bot.acts[k] == b'.acts[k];
          }
        }
      }
    }
  }

  /**
   * When the hashtags loop ends normally, every search whose hashtag got
   * fewer than `HashtagCap` replies in the whole loop has had each of its
   * qualifying results answered: unseen, not by a monitored account, liked
   * enough.
   */
  lemma HashtagsComplete(tags: seq<string>, searches: seq<seq<Tweet>>, i: nat, cfg: Settings,
                                            metrics: map<TweetId, map<string, int>>, s: Bot)
    requires i <= |tags|
    requires HashtagsFrom(tags, searches, i, cfg, metrics, s).Done?
    ensures var r := HashtagsFrom(tags, searches, i, cfg, metrics, s).bot;
            |s.acts| <= |r.acts| &&
            forall k, j :: i <= k < |tags| && k < |searches| && 0 <= j < |searches[k]|
                           && RepliesFor(r.acts[|s.acts|..], tags[k]) < HashtagCap
                           && searches[k][j].id.Some? && !ByMonitored(searches[k][j], cfg.monitor)
                           && Liked(metrics, searches[k][j].id.value, cfg.minLikes)
                           ==> searches[k][j].id.value in r.seen
  {
    var r := HashtagsFrom(tags, searches, i, cfg, metrics, s).bot;
    HashtagsGrow(tags, searches, i, cfg, metrics, s);
    forall k, j | i <= k < |tags| && k < |searches| && 0 <= j < |searches[k]|
                  && RepliesFor(r.acts[|s.acts|..], tags[k]) < HashtagCap
                  && searches[k][j].id.Some? && !ByMonitored(searches[k][j], cfg.monitor)
                  && Liked(metrics, searches[k][j].id.value, cfg.minLikes)
      ensures searches[k][j].id.value in r.seen
    {
      HashtagSearchSeen(tags, searches, i, k, j, cfg, metrics, s);
    }
  }

  /** `HashtagsComplete` for the `j`-th result of the `k`-th search. */
  lemma {:induction false} HashtagSearchSeen(tags: seq<string>, searches: seq<seq<Tweet>>, i: nat, k: nat, j: nat, cfg: Settings,
                                             metrics: map<TweetId, map<string, int>>, s: Bot)
    requires i <= k < |tags| && k < |searches| && j < |searches[k]|
    requires HashtagsFrom(tags, searches, i, cfg, metrics, s).Done?
    requires |s.acts| <= |HashtagsFrom(tags, searches, i, cfg, metrics, s).bot.acts|
    requires RepliesFor(HashtagsFrom(tags, searches, i, cfg, metrics, s).bot.acts[|s.acts|..], tags[k]) < HashtagCap
    requires searches[k][j].id.Some? && !ByMonitored(searches[k][j], cfg.monitor)
    requires Liked(metrics, searches[k][j].id.value, cfg.minLikes)
    ensures searches[k][j].id.value in HashtagsFrom(tags, searches, i, cfg, metrics, s).bot.seen
    decreases k - i
  {
    var step := HashtagStep(tags[i], FeedAt(searches, i), cfg, metrics, s);
    HashtagsUnfold(tags, searches, i, cfg, metrics, s);
    var b := step.bot;
    HashtagStepComplete(tags[i], FeedAt(searches, i), cfg, metrics, s);
    HashtagsSplit(tags, searches, i + 1, cfg, metrics, s, b, tags[k]);
    if k == i {
      assert FeedAt(searches, i) == searches[i];
    } else {
      HashtagSearchSeen(tags, searches, i + 1, k, j, cfg, metrics, b);
    }
  }

  /** A loop that ends normally took its first step normally, and went on from there. */
  lemma HashtagsUnfold(tags: seq<string>, searches: seq<seq<Tweet>>, i: nat, cfg: Settings,
                       metrics: map<TweetId, map<string, int>>, s: Bot)
    requires i < |tags|
    requires HashtagsFrom(tags, searches, i, cfg, metrics, s).Done?
    ensures HashtagStep(tags[i], FeedAt(searches, i), cfg, metrics, s).Done?
    ensures HashtagsFrom(tags, searches, i, cfg, metrics, s)
            == HashtagsFrom(tags, searches, i + 1, cfg, metrics, HashtagStep(tags[i], FeedAt(searches, i), cfg, metrics, s).bot)
  {
  }

  /** The replies of a loop's run split into those before `b` and those after. */
  lemma HashtagsSplit(tags: seq<string>, searches: seq<seq<Tweet>>, i: nat, cfg: Settings,
                      metrics: map<TweetId, map<string, int>>, s: Bot, b: Bot, h: string)
    requires i <= |tags|
    requires |s.acts| <= |b.acts| && b.acts[..|s.acts|] == s.acts
    ensures var r := HashtagsFrom(tags, searches, i, cfg, metrics, b).bot;
            && |s.acts| <= |b.acts| <= |r.acts| && b.seen <= r.seen
            && RepliesFor(r.acts[|s.acts|..], h) == RepliesFor(b.acts[|s.acts|..], h) + RepliesFor(r.acts[|b.acts|..], h)
  {
    var r := HashtagsFrom(tags, searches, i, cfg, metrics, b).bot;
    HashtagsGrow(tags, searches, i, cfg, metrics, b);
    assert r.acts[|s.acts|..] == b.acts[|s.acts|..] + r.acts[|b.acts|..];
    RepliesForAppend(b.acts[|s.acts|..], r.acts[|b.acts|..], h);
  }

  /** The hashtags loop only appends actions and only adds seen ids. */
  lemma HashtagsGrow(tags: seq<string>, searches: seq<seq<Tweet>>, i: nat, cfg: Settings,
                     metrics: map<TweetId, map<string, int>>, s: Bot)
    requires i <= |tags|
    ensures var r := HashtagsFrom(tags, searches, i, cfg, metrics, s).bot;
            |s.acts| <= |r.acts| && r.acts[..|s.acts|] == s.acts && s.seen <= r.seen
  {
    HashtagsSound(tags, searches, i, cfg, metrics, s);
  }

  /**
   * One hashtag's step that ends normally: its actions are all replies for
   * that hashtag, and when there are fewer than `HashtagCap` every
   * qualifying result of its search is seen.
   */
  lemma HashtagStepComplete(hashtag: string, feed: seq<Tweet>, cfg: Settings, metrics: map<TweetId, map<string, int>>, s: Bot)
    requires HashtagStep(hashtag, feed, cfg, metrics, s).Done?
    ensures var b := HashtagStep(hashtag, feed, cfg, metrics, s).bot;
            && |s.acts| <= |b.acts| && b.acts[..|s.acts|] == s.acts
            && RepliesFor(b.acts[|s.acts|..], hashtag) == |b.acts| - |s.acts|
            && (|b.acts| - |s.acts| < HashtagCap ==>
                  forall j :: 0 <= j < |feed| && feed[j].id.Some? && !ByMonitored(feed[j], cfg.monitor)
                              && Liked(metrics, feed[j].id.value, cfg.minLikes)
                              ==> feed[j].id.value in b.seen)
  {
    var a := Admit(s, SearchQuota);
    var inner := HashtagTweetsFrom(feed, 0, hashtag, 0, cfg, metrics, a);
    HashtagTweetsSound(feed, 0, hashtag, 0, cfg, metrics, a);
    HashtagTweetsComplete(feed, 0, hashtag, 0, cfg, metrics, a);
    RepliesForAll(inner.bot.acts[|a.acts|..], hashtag, cfg, metrics);
  }

  /**
   * `process_hashtags` once due: at most three replies for each hashtag
   * searched, counted over the whole run (the cap of three per search is
   * `HashtagTweetsSound`'s), each to an unseen tweet that is not by a
   * monitored account and has at least `minLikes` likes; the seen set grows by exactly those tweets, so a tweet
   * below the threshold is never marked seen.
   */
  lemma ProcessHashtagsEffect(s: Bot, searches: seq<seq<Tweet>>, metrics: map<TweetId, map<string, int>>, cfg: Settings)
    requires s.now - s.last.hashtags >= 900
    ensures var o := ProcessHashtagsRun(s, searches, metrics, cfg);
            var r := o.bot;
            && Follows(s, r)
            && r.last == (if o.Done? then s.last.Set(HashtagsTask, r.now) else s.last)
            && |r.acts| <= |s.acts| + HashtagCap * |cfg.hashtags|
            && (forall k :: |s.acts| <= k < |r.acts| ==> HashtagAct(r.acts[k], cfg.hashtags, cfg, metrics))
            && (forall id :: id in r.seen && id !in s.seen ==> Liked(metrics, id, cfg.minLikes))
  ensures var o := ProcessHashtagsRun(s, searches, metrics, cfg);
          var r := o.bot;
          o.Done? ==>
            forall k, j :: 0 <= k < |cfg.hashtags| && k < |searches| && 0 <= j < |searches[k]|
                           && RepliesFor(r.acts[|s.acts|..], cfg.hashtags[k]) < HashtagCap
                           && searches[k][j].id.Some? && !ByMonitored(searches[k][j], cfg.monitor)
                           && Liked(metrics, searches[k][j].id.value, cfg.minLikes)
                           ==> searches[k][j].id.value in r.seen
  {
    var o := HashtagsFrom(cfg.hashtags, searches, 0, cfg, metrics, s);
    var r := o.bot;
    HashtagsSound(cfg.hashtags, searches, 0, cfg, metrics, s);
    if o.Done? {
      HashtagsComplete(cfg.hashtags, searches, 0, cfg, metrics, s);
    }
    forall id | id in r.seen && id !in s.seen
      ensures Liked(metrics, id, cfg.minLikes)
    {
      var k := SubjectsWitness(Added(s, r), id);
      assert HashtagAct(r.acts[|s.acts| + k], cfg.hashtags, cfg, metrics);
    }
  }

  /**
   * An empty name among the monitored accounts is contained in every
   * username, so once due `process_hashtags` replies to nothing and marks
   * nothing seen.
   */
  lemma EmptyMonitoredNameSilencesHashtags(s: Bot, searches: seq<seq<Tweet>>, metrics: map<TweetId, map<string, int>>, cfg: Settings)
    requires s.now - s.last.hashtags >= 900
    requires "" in cfg.monitor
    ensures var r := ProcessHashtagsRun(s, searches, metrics, cfg).bot;
            r.acts == s.acts && r.seen == s.seen
  {
    var r := ProcessHashtagsRun(s, searches, metrics, cfg).bot;
    ProcessHashtagsEffect(s, searches, metrics, cfg);
    if |r.acts| > |s.acts| {
      var x := r.acts[|s.acts|];
      assert HashtagAct(x, cfg.hashtags, cfg, metrics);
      var k :| 0 <= k < |cfg.monitor| && cfg.monitor[k] == "";
      assert Text.Lower(cfg.monitor[k]) == "";
      Text.EmptyOccursEverywhere(Text.Lower(AuthorName(x.tweet)));
      assert false;
    }
    assert r.acts == s.acts;
    assert Added(s, r) == [];
  }

  // ------------------------------------------------------------ cleanup, tick

  /**
   * `cleanup_processed_tweets` keeps exactly the ids less than an hour old;
   * doing it twice is doing it once, and an id it drops is never kept by a
   * later cleanup.
   */
  lemma CleanupKeepsRecent(seen: set<TweetId>, now: int)
    ensures forall id :: id in Cleaned(seen, now) <==> id in seen && now - id < Retention
    ensures forall later :: later >= now ==> Cleaned(seen, later) <= Cleaned(seen, now)
    ensures Cleaned(Cleaned(seen, now), now) == Cleaned(seen, now)
  {
  }
  /** Ids that are not older than the retention window when read as instants are never forgotten, whatever their size. */
  lemma CleanupKeepsLargeIds(seen: set<TweetId>, now: int, id: TweetId)
    requires id in seen && id > now - Retention
    ensures id in Cleaned(seen, now)
  {
  }

  /** A task's stamp either stays or moves at least its check interval past the old one; the other stamps stay. */
  predicate StampsSpaced(before: Stamps, after: Stamps, t: Task) {
    && (after.Get(t) == before.Get(t) || after.Get(t) >= before.Get(t) + CheckInterval(t))
    && forall u :: u != t ==> after.Get(u) == before.Get(u)
  }

  lemma MentionsStageEffect(s: Bot, f: Feeds)
    ensures var r := MentionsStage(s, f).bot;
            Follows(s, r) && StampsSpaced(s.last, r.last, MentionsTask)
  {
    if ShouldProcess(s.now, s.last, MentionsTask) {
      ProcessMentionsEffect(s, f.mentions);
    } else {
      FollowsRefl(s, s);
    }
  }

  lemma AccountsStageEffect(s: Bot, f: Feeds, cfg: Settings)
    ensures var r := AccountsStage(s, f, cfg);
            Follows(s, r) && StampsSpaced(s.last, r.last, AccountsTask)
  {
    if ShouldProcess(s.now, s.last, AccountsTask) {
      ProcessAccountsEffect(s, f.accountTweets, cfg);
    } else {
      FollowsRefl(s, s);
    }
  }

  lemma HashtagsStageEffect(s: Bot, f: Feeds, cfg: Settings)
    ensures var r := HashtagsStage(s, f, cfg).bot;
            Follows(s, r) && StampsSpaced(s.last, r.last, HashtagsTask)
  {
    if ShouldProcess(s.now, s.last, HashtagsTask) {
      ProcessHashtagsEffect(s, f.searches, f.metrics, cfg);
    } else {
      FollowsRefl(s, s);
    }
  }

  /**
   * One pass of `main`'s loop.  Actions are only appended, and each is about
   * a tweet that was not seen when the pass began, so no tweet is acted upon
   * again while it is remembered.  The clock advances by at least the loop's
   * pause (at least the error delay after an exception).  A task's stamp
   * either stays or moves at least its check interval past the old one.  The
   * seen set gains only the tweets acted upon and loses only ids at least an
   * hour old (read as instants) at the cleanup, which an exception skips.
   */
  lemma TickEffect(s: Bot, f: Feeds, cfg: Settings)
    ensures var o := TickRun(s, f, cfg);
            var r := o.bot;
            && |s.acts| <= |r.acts| && r.acts[..|s.acts|] == s.acts
            && Fresh(Added(s, r), s.seen)
            && r.now >= s.now + (if o.Raised? then cfg.errorDelay else LoopPause)
            && r.seen <= s.seen + Subjects(Added(s, r))
            && (o.Raised? ==> r.seen == s.seen + Subjects(Added(s, r)))
            && (forall id :: id in s.seen + Subjects(Added(s, r)) && id !in r.seen ==>
                               o.Done? && r.now - LoopPause - id >= Retention)
            && forall t :: r.last.Get(t) == s.last.Get(t) || r.last.Get(t) >= s.last.Get(t) + CheckInterval(t)
  {
    var s1 := MentionsStage(s, f).bot;
    MentionsStageEffect(s, f);
    if MentionsStage(s, f).Done? {
      var s2 := AccountsStage(s1, f, cfg);
      var s3 := HashtagsStage(s2, f, cfg).bot;
      AccountsStageEffect(s1, f, cfg);
      HashtagsStageEffect(s2, f, cfg);
      FollowsTrans(s, s1, s2);
      FollowsTrans(s, s2, s3);
      assert Added(s, TickRun(s, f, cfg).bot) == Added(s, s3);
    } else {
      assert Added(s, TickRun(s, f, cfg).bot) == Added(s, s1);
    }
  }
}
