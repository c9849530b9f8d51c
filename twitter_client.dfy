/**
 * The social-platform gateway of twitter_client.py (class TwitterClient): the
 * cached user id, posting and retweeting, the two DELETE calls, and how the
 * tweet lists returned by the API are shaped before the bot sees them.
 *
 * Every request goes through `Requests.Request` over a scripted transport.
 * Where an operation only shapes a response, the response (what the request
 * wrapper returned) is a parameter.
 */
module Twitter {
  import opened Wrappers
  import opened Tweets
  import opened Requests

  /** The body of `GET /users/me`: `data.id`, when there is a `data` object. */
  datatype MeBody = MeBody(data: Option<string>)

  /** The body of a tweet listing: `data` and `includes.users`, each possibly missing. */
  datatype TweetsBody = TweetsBody(data: Option<seq<Tweet>>, includesUsers: Option<seq<User>>)

  /** The body of a POST or DELETE: whether it has a `data` key and whether it has an `errors` key. */
  datatype PostBody = PostBody(hasData: bool, hasErrors: bool)

  /** The JSON object `create_tweet` posts. */
  datatype TweetPayload = TweetPayload(text: string, inReplyTo: Option<string>)

  /** The outcome of `create_tweet`: what it posted, whether it reports success, and the request's trace. */
  datatype Posted = Posted(payload: TweetPayload, ok: bool, trace: Trace<PostBody>)

  /** How long `get_user_tweets` and the accounts task look back: two hours. */
  const RecentWindow: int := 7200

  /** A response counts as a success exactly when it is non-empty and has `data`. */
  predicate HasData(r: Option<PostBody>) {
    r.Some? && r.value.hasData
  }

  /** The payload of `create_tweet`: the reply object is there exactly when `reply_to` is truthy. */
  function Payload(text: string, replyTo: Option<string>): (p: TweetPayload)
    ensures p.text == text
    ensures p.inReplyTo.Some? <==> Truthy(replyTo)
    ensures p.inReplyTo.Some? ==> p.inReplyTo == replyTo
  {
    TweetPayload(text, if Truthy(replyTo) then replyTo else None)
  }

  /** `create_tweet(text, reply_to)`: posts the payload and reports whether the answer has `data`. */
  function CreateTweet(text: string, replyTo: Option<string>, script: seq<Attempt<PostBody>>, now: int): (r: Posted)
    ensures r.payload == Payload(text, replyTo)
    ensures r.trace == Request("POST", script, now, 0)
    ensures r.trace.used <= |script|
    ensures r.ok <==> r.trace.used > 0 && HasData(AnswerOf(script[r.trace.used - 1]))
  {
    var t := Request("POST", script, now, 0);
    RequestUses("POST", script, now, 0);
    Posted(Payload(text, replyTo), HasData(t.result), t)
  }

  /** A first attempt that answers with `data` makes the post a success. */
  lemma CreateTweetAnswered(text: string, replyTo: Option<string>, script: seq<Attempt<PostBody>>, now: int)
    requires script != [] && HasData(AnswerOf(script[0]))
    ensures CreateTweet(text, replyTo, script, now).ok
  {
    ThrottlesThenAnswer("POST", 0, 0, script, now, 0, AnswerOf(script[0]).value);
  }

  /** Four failed attempts in a row make the post a failure, after the three back-offs. */
  lemma CreateTweetGivesUp(text: string, replyTo: Option<string>, script: seq<Attempt<PostBody>>, now: int)
    requires |script| >= 4 && forall i :: 0 <= i < 4 ==> Fails(script[i])
    ensures var r := CreateTweet(text, replyTo, script, now);
            !r.ok && r.trace.now == now + 7
  {
    FourAttemptsThenNone("POST", script, now);
  }

  /** Python dictionaries built from a list keep the last entry for a key: the last user with this id. */
  function Lookup(users: seq<User>, id: string): (u: Option<User>)
    ensures u.Some? ==> u.value in users && u.value.id == id
    ensures u.None? ==> forall v :: v in users ==> v.id != id
  {
    if users == [] then None
    else if users[|users| - 1].id == id then Some(users[|users| - 1])
    else Lookup(users[..|users| - 1], id)
  }

  /** The later of two users with the same id wins the lookup. */
  lemma {:induction false} LookupLastWins(users: seq<User>, i: nat)
    requires i < |users|
    requires forall j :: i < j < |users| ==> users[j].id != users[i].id
    ensures Lookup(users, users[i].id) == Some(users[i])
  {
    if i < |users| - 1 {
      LookupLastWins(users[..|users| - 1], i);
    }
  }

  /**
   * One tweet after the author join: only its username and verified flag
   * change; the flag is always set, and the username is a value exactly when
   * the author is among the included users.
   */
  function Joined(t: Tweet, authorId: string, users: seq<User>): (r: Tweet)
    ensures r.(username := t.username, verified := t.verified) == t
    ensures r.verified.Some?
    ensures r.username.Value? <==> Lookup(users, authorId).Some?
  {
    match Lookup(users, authorId)
    case Some(u) => t.(username := Value(u.username), verified := Some(u.verified.GetOr(false)))
    case None => t.(username := Null, verified := Some(false))
  }

  /**
   * The author join of `get_mentions` and `search_tweets`: each tweet gets the
   * username and verified flag of its `author_id`.  A tweet without
   * `author_id` raises `KeyError`, which makes the whole call return `[]`
   * (`None` here).
   */
  function JoinAll(tweets: seq<Tweet>, users: seq<User>): (r: Option<seq<Tweet>>)
    ensures r.None? <==> exists i :: 0 <= i < |tweets| && tweets[i].authorId.None?
    ensures r.Some? ==> |r.value| == |tweets|
    ensures r.Some? ==> forall i :: 0 <= i < |tweets| ==> r.value[i] == Joined(tweets[i], tweets[i].authorId.value, users)
  {
    if tweets == [] then Some([])
    else if tweets[0].authorId.None? then None
    else
      var rest := JoinAll(tweets[1..], users);
      if rest.None? then
        assert exists i :: 1 <= i < |tweets| && tweets[i].authorId.None? by {
          var i :| 0 <= i < |tweets[1..]| && tweets[1..][i].authorId.None?;
          assert tweets[i + 1] == tweets[1..][i];
        }
        None
      else
        Some([Joined(tweets[0], tweets[0].authorId.value, users)] + rest.value)
  }

  /** The loop of the join, computing `JoinAll`. */
  method JoinAuthors(tweets: seq<Tweet>, users: seq<User>) returns (r: Option<seq<Tweet>>)
    ensures r == JoinAll(tweets, users)
  {
    var out := tweets;
    for i := 0 to |tweets|
      invariant |out| == |tweets|
      invariant forall j :: 0 <= j < i ==> tweets[j].authorId.Some? && out[j] == Joined(tweets[j], tweets[j].authorId.value, users)
      invariant forall j :: i <= j < |tweets| ==> out[j] == tweets[j]
    {
      if tweets[i].authorId.None? {
        return None;
      }
      out := out[i := Joined(tweets[i], tweets[i].authorId.value, users)];
    }
    assert JoinAll(tweets, users).Some?;
    assert JoinAll(tweets, users).value == out;
    return Some(out);
  }

  /**
   * What `get_mentions` and `search_tweets` return for a response: `[]`
   * without `data`; `data` untouched without `includes.users`; otherwise
   * every tweet joined with its author, or `[]` when one has no `author_id`.
   */
  function Shape(response: Option<TweetsBody>): (tweets: seq<Tweet>)
    ensures response.None? || response.value.data.None? ==> tweets == []
    ensures response.Some? && response.value.data.Some? && response.value.includesUsers.None? ==>
              tweets == response.value.data.value
    ensures response.Some? && response.value.data.Some? && response.value.includesUsers.Some? ==>
              var data := response.value.data.value;
              && ((exists i :: 0 <= i < |data| && data[i].authorId.None?) ==> tweets == [])
              && ((forall i :: 0 <= i < |data| ==> data[i].authorId.Some?) ==>
                    |tweets| == |data| &&
                    forall i :: 0 <= i < |data| ==> tweets[i] == Joined(data[i], data[i].authorId.value, response.value.includesUsers.value))
  {
    if response.None? || response.value.data.None? then []
    else if response.value.includesUsers.None? then response.value.data.value
    else
      var joined := JoinAll(response.value.data.value, response.value.includesUsers.value);
      if joined.Some? then joined.value else []
  }

  /** The shaping as the source writes it, computing `Shape`. */
  method ShapeTweets(response: Option<TweetsBody>) returns (tweets: seq<Tweet>)
    ensures tweets == Shape(response)
    ensures response.None? || response.value.data.None? ==> tweets == []
    ensures response.Some? && response.value.data.Some? && response.value.includesUsers.None? ==>
              tweets == response.value.data.value
    ensures |tweets| <= if response.Some? && response.value.data.Some? then |response.value.data.value| else 0
    ensures forall i :: 0 <= i < |tweets| ==> tweets[i].id == response.value.data.value[i].id && tweets[i].text == response.value.data.value[i].text
  {
    if response.None? || response.value.data.None? {
      return [];
    }
    var data := response.value.data.value;
    if response.value.includesUsers.None? {
      return data;
    }
    var joined := JoinAuthors(data, response.value.includesUsers.value);
    tweets := if joined.Some? then joined.value else [];
  }

  /** The tweets that pass the two-hour filter, in their original order. */
  function Recent(tweets: seq<Tweet>, cutoff: int): seq<Tweet>
    requires forall i :: 0 <= i < |tweets| ==> tweets[i].createdAt.Some?
  {
    if tweets == [] then []
    else
      var last := tweets[|tweets| - 1];
      Recent(tweets[..|tweets| - 1], cutoff) + if last.createdAt.value > cutoff then [last] else []
  }

  /** A tweet is kept by the filter exactly when it was created strictly after the cutoff. */
  lemma {:induction false} RecentKeepsExactlyNewer(tweets: seq<Tweet>, cutoff: int)
    requires forall i :: 0 <= i < |tweets| ==> tweets[i].createdAt.Some?
    ensures forall t :: t in Recent(tweets, cutoff) ==> t in tweets && t.createdAt.value > cutoff
    ensures forall t :: t in tweets && t.createdAt.value > cutoff ==> t in Recent(tweets, cutoff)
    ensures |Recent(tweets, cutoff)| <= |tweets|
  {
    if tweets != [] {
      var init := tweets[..|tweets| - 1];
      RecentKeepsExactlyNewer(init, cutoff);
      assert tweets == init + [tweets[|tweets| - 1]];
    }
  }

  /**
   * The filtering loop of `get_user_tweets`: the tweets created strictly
   * after `now - RecentWindow`.  A tweet without `created_at` raises, and the
   * call returns `[]`.
   */
  method FilterRecent(tweets: seq<Tweet>, now: int) returns (recent: seq<Tweet>)
    ensures (forall i :: 0 <= i < |tweets| ==> tweets[i].createdAt.Some?) ==> recent == Recent(tweets, now - RecentWindow)
    ensures (exists i :: 0 <= i < |tweets| && tweets[i].createdAt.None?) ==> recent == []
  {
    var cutoff := now - RecentWindow;
    recent := [];
    for i := 0 to |tweets|
      invariant forall j :: 0 <= j < i ==> tweets[j].createdAt.Some?
      invariant recent == Recent(tweets[..i], cutoff)
    {
      if tweets[i].createdAt.None? {
        return [];
      }
      assert tweets[..i + 1][..i] == tweets[..i];
      if tweets[i].createdAt.value > cutoff {
        recent := recent + [tweets[i]];
      }
    }
    assert tweets[..|tweets|] == tweets;
  }

  /**
   * `get_user_tweets(username)` once the user lookup (`userId`) and the
   * timeline request (`response`) are known: `[]` when the lookup failed or
   * the response has no `data`, and otherwise the tweets of the last two hours.
   */
  method GetUserTweets(userId: Option<string>, response: Option<TweetsBody>, now: int) returns (recent: seq<Tweet>)
    ensures !Truthy(userId) || response.None? || response.value.data.None? ==> recent == []
    ensures Truthy(userId) && response.Some? && response.value.data.Some? ==>
              var data := response.value.data.value;
              && ((forall i :: 0 <= i < |data| ==> data[i].createdAt.Some?) ==> recent == Recent(data, now - RecentWindow))
              && ((exists i :: 0 <= i < |data| && data[i].createdAt.None?) ==> recent == [])
    ensures forall t :: t in recent ==> t.createdAt.Some? && t.createdAt.value > now - RecentWindow
    ensures forall t :: t in recent ==> t in response.value.data.value
  {
    if !Truthy(userId) || response.None? || response.value.data.None? {
      return [];
    }
    var data := response.value.data.value;
    recent := FilterRecent(data, now);
    if forall i :: 0 <= i < |data| ==> data[i].createdAt.Some? {
      RecentKeepsExactlyNewer(data, now - RecentWindow);
    }
  }

  class TwitterClient {
    /** `self.user_id`: the authenticated account's id once it has been fetched. */
    var userId: Option<string>

    constructor ()
      ensures userId == None
    {
      userId := None;
    }

    /**
     * `get_user_id`: the cached id when there is one, with no request;
     * otherwise `GET /users/me`, caching the id only from a response with `data`.
     */
    method GetUserId(script: seq<Attempt<MeBody>>, now: int) returns (id: Option<string>, t: Trace<MeBody>)
      modifies this
      ensures Truthy(old(userId)) ==> id == old(userId) && userId == old(userId) && t.used == 0 && t.now == now && t.attempts == 0
      ensures !Truthy(old(userId)) ==> t == Request("GET", script, now, 0)
      ensures t.now >= now
      ensures !Truthy(old(userId)) && t.result.Some? && t.result.value.data.Some? ==> id == t.result.value.data && userId == id
      ensures !Truthy(old(userId)) && !(t.result.Some? && t.result.value.data.Some?) ==> id == None && userId == old(userId)
    {
      if Truthy(userId) {
        return userId, Trace(None, now, 0, [], 0);
      }
      t := Request("GET", script, now, 0);
      RequestClock("GET", script, now, 0);
      if t.result.Some? && t.result.value.data.Some? {
        userId := t.result.value.data;
        return userId, t;
      }
      return None, t;
    }

    /**
     * `retweet(tweet_id)`: no POST without a user id; otherwise true exactly
     * when the POST (`post`) answers with `data`.  An answer with `errors` is
     * also false.
     */
    method Retweet(tweetId: TweetId, meScript: seq<Attempt<MeBody>>, script: seq<Attempt<PostBody>>, now: int)
      returns (ok: bool, post: Option<Trace<PostBody>>, after: int)
      modifies this
      ensures post.None? <==> !Truthy(userId)
      ensures var start := if Truthy(old(userId)) then now else Request("GET", meScript, now, 0).now;
              && (post.None? ==> !ok && after == start)
              && (post.Some? ==> post.value == Request("POST", script, start, 0))
      ensures post.Some? ==> ok == HasData(post.value.result) && after == post.value.now
      ensures after >= now
    {
      var id, t := GetUserId(meScript, now);
      after := t.now;
      if !Truthy(id) {
        return false, None, after;
      }
      var r := Request("POST", script, after, 0);
      RequestClock("POST", script, after, 0);
      after := r.now;
      ok := HasData(r.result);
      post := Some(r);
    }

    /** `unretweet`: the DELETE never reaches the transport, so the answer is always false. */
    method Unretweet(tweetId: TweetId, meScript: seq<Attempt<MeBody>>, script: seq<Attempt<PostBody>>, now: int)
      returns (ok: bool, after: int)
      modifies this
      ensures !ok
    {
      var id, t := GetUserId(meScript, now);
      after := t.now;
      if !Truthy(id) {
        return false, after;
      }
      var r := Request("DELETE", script, after, 0);
      assert !Supported("DELETE");
      UnsupportedNeverAnswers("DELETE", script, after);
      after := r.now;
      ok := HasData(r.result);
    }

    /** `unlike_tweet`: likewise always false. */
    method UnlikeTweet(tweetId: TweetId, meScript: seq<Attempt<MeBody>>, script: seq<Attempt<PostBody>>, now: int)
      returns (ok: bool, after: int)
      modifies this
      ensures !ok
    {
      var id, t := GetUserId(meScript, now);
      after := t.now;
      if !Truthy(id) {
        return false, after;
      }
      var r := Request("DELETE", script, after, 0);
      assert !Supported("DELETE");
      UnsupportedNeverAnswers("DELETE", script, after);
      after := r.now;
      ok := HasData(r.result);
    }

    /**
     * `get_mentions`: `[]` without a user id; otherwise the shaped answer of
     * the mentions request.
     */
    method GetMentions(meScript: seq<Attempt<MeBody>>, script: seq<Attempt<TweetsBody>>, now: int)
      returns (mentions: seq<Tweet>, after: int)
      modifies this
      ensures var start := if Truthy(old(userId)) then now else Request("GET", meScript, now, 0).now;
              && (!Truthy(userId) ==> mentions == [] && after == start)
              && (Truthy(userId) ==> mentions == Shape(Request("GET", script, start, 0).result) && after == Request("GET", script, start, 0).now)
      ensures after >= now
    {
      var id, t := GetUserId(meScript, now);
      after := t.now;
      if !Truthy(id) {
        return [], after;
      }
      var r := Request("GET", script, after, 0);
      RequestClock("GET", script, after, 0);
      after := r.now;
      mentions := ShapeTweets(r.result);
    }
  }

  /** `search_tweets(query)`: the shaped answer of the search request. */
  method SearchTweets(script: seq<Attempt<TweetsBody>>, now: int) returns (tweets: seq<Tweet>, after: int)
    ensures tweets == Shape(Request("GET", script, now, 0).result)
    ensures var t := Request("GET", script, now, 0);
            && after == t.now
            && (t.result.None? ==> tweets == [])
            && (t.result.Some? && t.result.value.data.Some? && t.result.value.includesUsers.None? ==> tweets == t.result.value.data.value)
  {
    var t := Request("GET", script, now, 0);
    after := t.now;
    tweets := ShapeTweets(t.result);
  }
}
