/**
 * The tweet records the bot passes around.  In the bot they are JSON
 * dictionaries; here each key the bot reads is a field.  A key that may be
 * missing is an `Option`; `username`, which the author join may set to
 * `None`, distinguishes a missing key from a key holding `None`.
 *
 * Instants are integer seconds since the epoch; tweet ids are naturals (they
 * are numerals in the API, and the bot's dedup eviction reads them as numbers).
 */
module Tweets {
  import opened Wrappers

  type TweetId = nat

  /** A dictionary key: missing, present with the value `None`, or present with a value. */
  datatype Field<T> = Absent | Null | Value(v: T) {
    /** `d.get(key)`: both a missing key and `None` read as `None`. */
    function Get(): Option<T> {
      match this
      case Value(v) => Some(v)
      case _ => None
    }
  }

  datatype Tweet = Tweet(
    id: Option<TweetId>,
    text: Option<string>,
    createdAt: Option<int>,
    authorId: Option<string>,
    /** `tweet['author']['username']`, when the tweet carries an `author` object. */
    authorUsername: Option<string>,
    username: Field<string>,
    verified: Option<bool>
  )

  /** An entry of `includes.users` in an API response. */
  datatype User = User(id: string, username: string, verified: Option<bool>)

  /** Python truthiness of an optional string: present and non-empty. */
  predicate Truthy(s: Option<string>) {
    s.Some? && s.value != ""
  }

  /** Where an item the bot replies to came from. */
  datatype Origin = FromMention | FromAccount(account: string) | FromHashtag(hashtag: string)

  /**
   * What a scheduler task hands to the outside world: a tweet given to the
   * mention processor for a reply, or a retweet request.
   */
  datatype Action = Reply(tweet: Tweet, origin: Origin) | Retweet(tweetId: TweetId, account: string) {
    /** The id of the tweet acted upon (a tweet reaches an action only once its id was read). */
    function Subject(): Option<TweetId> {
      match this
      case Reply(t, _) => t.id
      case Retweet(id, _) => Some(id)
    }
  }
}
