/**
 * mention_processor.py: the class that fetches recent mentions of the bot's
 * account and replies to one mention with the assistant's answer.
 *
 * The gateway and the assistant are oracles: what `get_user_id`,
 * `_get_latest_mention_id`, `get_mentions` and `get_response` return is given
 * to the operations as parameters.  `now` is the current instant in seconds.
 */
module Mentions {
  import opened Wrappers
  import opened Tweets

  /** `Config.DEFAULT_MENTION_AGE_LIMIT`, in minutes. */
  const DefaultMentionAgeLimit: int := 180

  /** A mention is young enough when it has a creation instant at most `limitMinutes` before `now`. */
  predicate WithinAge(m: Tweet, now: int, limitMinutes: int) {
    m.createdAt.Some? && now - m.createdAt.value <= limitMinutes * 60
  }

  /** The mentions the age filter keeps, in their original order. */
  function YoungMentions(ms: seq<Tweet>, now: int, limitMinutes: int): (r: seq<Tweet>)
    ensures |r| <= |ms|
    ensures forall m :: m in r ==> m in ms && WithinAge(m, now, limitMinutes)
  {
    if ms == [] then []
    else (if WithinAge(ms[0], now, limitMinutes) then [ms[0]] else []) + YoungMentions(ms[1..], now, limitMinutes)
  }

  /** Every mention within the age limit is kept. */
  lemma {:induction false} YoungMentionsKeepsAll(ms: seq<Tweet>, now: int, limitMinutes: int)
    ensures forall m :: m in ms && WithinAge(m, now, limitMinutes) ==> m in YoungMentions(ms, now, limitMinutes)
  {
    if ms != [] {
      YoungMentionsKeepsAll(ms[1..], now, limitMinutes);
      forall m | m in ms && WithinAge(m, now, limitMinutes)
        ensures m in YoungMentions(ms, now, limitMinutes)
      {
        if m != ms[0] {
          assert m in ms[1..];
        }
      }
    }
  }

  /** The filter keeps the first young mention in front. */
  lemma {:induction false} YoungMentionsHead(ms: seq<Tweet>, now: int, limitMinutes: int, k: nat)
    requires k < |ms| && WithinAge(ms[k], now, limitMinutes)
    requires forall j :: 0 <= j < k ==> !WithinAge(ms[j], now, limitMinutes)
    ensures YoungMentions(ms, now, limitMinutes) != [] && YoungMentions(ms, now, limitMinutes)[0] == ms[k]
    decreases k
  {
    if k > 0 {
      YoungMentionsHead(ms[1..], now, limitMinutes, k - 1);
    }
  }

  /** Filtering is the same as filtering two parts and joining them. */
  lemma {:induction false} YoungMentionsAppend(a: seq<Tweet>, b: seq<Tweet>, now: int, limitMinutes: int)
    ensures YoungMentions(a + b, now, limitMinutes) == YoungMentions(a, now, limitMinutes) + YoungMentions(b, now, limitMinutes)
    decreases |a|
  {
    if a == [] {
      assert a + b == b;
    } else {
      assert (a + b)[1..] == a[1..] + b;
      YoungMentionsAppend(a[1..], b, now, limitMinutes);
    }
  }

  /** The reply `process_mention` posts: its text and the mention it answers. */
  datatype ReplyPost = ReplyPost(text: string, inReplyTo: TweetId)

  /** The name the mention is logged under: the author's username, the joined username, or one made from the author id. */
  function Username(m: Tweet): (name: string)
    ensures name != ""
    ensures Truthy(m.authorUsername) ==> name == m.authorUsername.value
    ensures !Truthy(m.authorUsername) && Truthy(m.username.Get()) ==> name == m.username.v
    ensures !Truthy(m.authorUsername) && !Truthy(m.username.Get()) ==>
              name == "user_" + (if m.authorId.Some? then m.authorId.value else "unknown")
  {
    if Truthy(m.authorUsername) then m.authorUsername.value
    else if Truthy(m.username.Get()) then m.username.Get().value
    else "user_" + m.authorId.GetOr("unknown")
  }

  /** What `process_mention` hands to the assistant: the username and the text, when the mention has an id and a text. */
  function AiRequest(m: Tweet): (q: Option<(string, string)>)
    ensures q.Some? <==> m.id.Some? && m.text.Some?
    ensures q.Some? ==> q.value.0 == Username(m) && q.value.1 == m.text.value
  {
    if m.id.Some? && m.text.Some? then Some((Username(m), m.text.value)) else None
  }

  /**
   * `process_mention` once the assistant's answer is known: a reply to the
   * mention with that answer exactly when the mention has an id and a text
   * and the answer is non-empty.  A missing key is swallowed.
   */
  function ProcessMention(m: Tweet, response: Option<string>): (post: Option<ReplyPost>)
    ensures post.Some? <==> AiRequest(m).Some? && Truthy(response)
    ensures post.Some? ==> post.value.text == response.value && post.value.text != "" && post.value.inReplyTo == m.id.value
  {
    match AiRequest(m)
    case None => None
    case Some(_) => if Truthy(response) then Some(ReplyPost(response.value, m.id.value)) else None
  }

  class MentionProcessor {
    /** `mention_age_limit_minutes`. */
    const ageLimitMinutes: int
    /** `self.user_id`. */
    var userId: Option<string>
    /** `self.last_mention_id`. */
    var lastMentionId: Option<TweetId>

    constructor (ageLimitMinutes: int)
      ensures this.ageLimitMinutes == ageLimitMinutes
      ensures userId == None && lastMentionId == None
    {
      this.ageLimitMinutes := ageLimitMinutes;
      userId := None;
      lastMentionId := None;
    }

    /**
     * `initialize`: fetch the user id and the latest mention id, but only
     * while no user id is known.  `requested` says whether it asked.
     */
    method Initialize(fetchedUserId: Option<string>, latestMentionId: Option<TweetId>) returns (requested: bool)
      modifies this
      ensures requested <==> !Truthy(old(userId))
      ensures requested ==> userId == fetchedUserId && lastMentionId == latestMentionId
      ensures !requested ==> userId == old(userId) && lastMentionId == old(lastMentionId)
    {
      requested := !Truthy(userId);
      if requested {
        userId := fetchedUserId;
        lastMentionId := latestMentionId;
      }
    }

    /** The age filter of `get_mentions`, as its loop runs. */
    method KeepYoung(mentions: seq<Tweet>, now: int) returns (kept: seq<Tweet>)
      ensures kept == YoungMentions(mentions, now, ageLimitMinutes)
    {
      kept := [];
      for i := 0 to |mentions|
        invariant kept == YoungMentions(mentions[..i], now, ageLimitMinutes)
      {
        var m := mentions[i];
        if m.createdAt.Some? {
          if now - m.createdAt.value <= ageLimitMinutes * 60 {
            kept := kept + [m];
          }
        }
        YoungMentionsAppend(mentions[..i], [m], now, ageLimitMinutes);
        assert mentions[..i + 1] == mentions[..i] + [m];
      }
      assert mentions[..|mentions|] == mentions;
    }

    /**
     * `get_mentions`: after `initialize`, `[]` without a user id; otherwise
     * the young mentions among `fetched`, remembering the first one's id.
     * A first kept mention without an id raises before the id is stored, and
     * the call returns `[]`.
     */
    method GetMentions(fetchedUserId: Option<string>, latestMentionId: Option<TweetId>, fetched: seq<Tweet>, now: int)
      returns (mentions: seq<Tweet>)
      modifies this
      ensures userId == if Truthy(old(userId)) then old(userId) else fetchedUserId
      ensures var last := if Truthy(old(userId)) then old(lastMentionId) else latestMentionId;
              var young := YoungMentions(fetched, now, ageLimitMinutes);
              if Truthy(userId) && young != [] && young[0].id.Some? then
                mentions == young && lastMentionId == young[0].id
              else
                mentions == [] && lastMentionId == last
    {
      var _ := Initialize(fetchedUserId, latestMentionId);
      if !Truthy(userId) {
        return [];
      }
      var kept := KeepYoung(fetched, now);
      if kept != [] {
        if kept[0].id.None? {
          return [];
        }
        lastMentionId := kept[0].id;
        return kept;
      }
      return [];
    }
  }
}
