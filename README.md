# A verified model of a polling Twitter bot

The bot polls the social platform's v2 API in a loop. Each pass of the loop does up to three tasks, each with its own minimum interval:

- it answers recent mentions of its own account with text from an OpenAI assistant;
- it answers and retweets recent tweets of a few monitored accounts;
- it answers popular tweets that carry a monitored hashtag.

Four sliding-window rate limiters throttle its calls. A shared set of processed tweet ids keeps it from handling a tweet twice. Every API call goes through one request wrapper that retries on errors with exponential backoff and sleeps through HTTP 429 responses.

The model is a Dafny project with one module per concern:

| file | module | models |
|---|---|---|
| `wrappers.dfy` | `Wrappers` | `Option` |
| `text.dfy` | `Text` | ASCII `lower()`/`upper()` and Python's substring test `in` |
| `tweets.dfy` | `Tweets` | tweet and user records as the API returns them (a key can be absent, `null` or a value) |
| `rate_limiter.dfy` | `RateLimiting` | `RateLimiter` of main.py: a class over the deque, proved against functions on the log |
| `requests.dfy` | `Requests` | `_make_request`: retries, backoff and the 429 path over a finite script of transport outcomes |
| `twitter_client.dfy` | `Twitter` | the user-id cache, `create_tweet`, `retweet`, the DELETE calls, the author join, the two-hour filter |
| `response_cleaning.dfy` | `ResponseCleaning` | `clean_response` as eleven rewrite passes plus `strip()`, and the truncation to 280 characters |
| `ai_client.dfy` | `AiClient` | `_wait_for_run`'s polling loop and `get_response` |
| `mention_processor.dfy` | `Mentions` | `MentionProcessor`: `initialize`, the age filter of `get_mentions`, `process_mention` |
| `scheduler.dfy` | `Scheduler` | `TwitterBot` and one pass of `main`'s loop: a function per operation on a snapshot `Bot`, and a class whose methods update their fields in place and are proved to end in the state the function describes |
| `scheduler_proofs.dfy` | `SchedulerProofs` | what each task and a whole pass guarantee: which tweets reach `process_mention`/`retweet`, which ids become seen, and how the clock and the task stamps move |

Conventions:

- Time is an integer number of seconds. The scheduler's clock advances by the scheduler's own `asyncio.sleep` calls and rate-limiter waits. The calls it makes into the gateway and the assistant take no time on it; `Requests.Request` keeps the request wrapper's own clock (see "## Left out").
- Tweet ids are naturals.
- The platform and the assistant are oracles. What a call returns is a parameter:
  - a script of transport outcomes for the request wrapper;
  - the fetched tweet lists, in call order;
  - the metrics per tweet id;
  - the poll results of a run.
- The bot's effect on the outside world is a log of actions: a tweet handed to `process_mention`, or a `retweet` call.

Where the code and its own comments or documentation disagree, the model follows the code:

- The hashtag task's gate waits 1800 seconds (main.py:60). Its inner guard waits only 900 (main.py:145).
- `process_mentions` filters with `is_tweet_recent`'s default of 5 minutes, not with the 180-minute mention age limit.
- `main`'s loop sleeps 60 seconds; `MAIN_LOOP_DELAY` (250) is never read.
- `get_mentions` of the client asks for 5 results even though its comment says 3.
- `cleanup_processed_tweets` reads a tweet id as an instant. With real snowflake ids, `now - id` is hugely negative, so no id is ever evicted (`SchedulerProofs.CleanupKeepsLargeIds`).
- `unretweet` and `unlike_tweet` send `DELETE`, which the wrapper rejects before any request. Each of them therefore sleeps 1 + 2 + 4 seconds and reports failure.

## Model

| member | source | states |
|---|---|---|
| Text.Lower | main.py:164 | `lower()` on ASCII: same length, every letter A–Z lowered, everything else kept |
| Text.Upper | twitter_client.py:28-30 | `upper()` on ASCII: same length, every letter a–z raised, everything else kept |
| Text.ContainsIffOccurs | main.py:164 | the scanning substring test holds exactly when the needle occurs at some position of the haystack |
| Text.EmptyOccursEverywhere | main.py:164 | an empty name is contained in every username, as with Python's `in` |
| RateLimiting.PruneCount | main.py:24-25 | the prune loop pops exactly the leading run of instants at or before the cutoff, and stops at the first newer one |
| RateLimiting.AcquireWait | main.py:27-31 | the wait of `acquire` is never negative |
| RateLimiting.AdmittedAt | main.py:22-33 | the instant `acquire` records is never before the instant it was called |
| RateLimiting.PrunedNewer | main.py:23-25 | after pruning a sorted deque, every retained instant is strictly newer than `now - window` |
| RateLimiting.DroppedAreOld | main.py:24-25 | every instant ever popped was at least a window old at the time of the call |
| RateLimiting.PrunedWithinCapacity | main.py:24-27 | under a monotone clock, the pruned deque never holds more than `requests_per_window` instants |
| RateLimiting.AcquireSleepsExactlyWhenFull | main.py:27-31 | `acquire` sleeps exactly when the pruned deque is full, and then until the oldest retained instant leaves the window |
| RateLimiting.AdmitPreservesInvariant | main.py:22-33 | one `acquire` keeps the whole admission history sorted and spaced (any `capacity + 1` consecutive admissions are a window apart), with the deque as its suffix |
| RateLimiting.AdmittedPerWindow | main.py:16-33 | in any span shorter than the window, at most `requests_per_window` admissions happen |
| RateLimiting.RateLimiter.constructor | main.py:17-20 | a limiter starts with an empty deque and the given capacity and window |
| RateLimiting.RateLimiter.Prune | main.py:24-25 | the loop removes exactly `PruneCount` instants from the front and keeps the rest |
| RateLimiting.RateLimiter.WaitAndRecord | main.py:27-33 | waits `AcquireWait` on the pruned deque and appends the instant after the wait |
| RateLimiting.RateLimiter.Acquire | main.py:22-33 | one `acquire`: the deque becomes the pruned deque plus exactly one instant `now + wait`, the wait is `AcquireWait`, the invariant is kept, and the deque never exceeds capacity + 1 |
| Requests.Pass | twitter_client.py:25-53 | one pass either returns or sleeps a positive time and calls itself with a retry count within `MAX_RETRIES`; a pass that never reached the transport raises the count by one |
| Requests.PassCases | twitter_client.py:28-53 | an unsupported verb or a failed outcome backs off `2^k` while `k < 3`, and otherwise returns `None`; a readable 429 sleeps and restarts with count 0; an answer returns its body |
| Requests.PassResult | twitter_client.py:43-53 | a pass that goes on after reaching the transport got no answer, and a pass that returns yields the outcome's body or `None` |
| Requests.Request | twitter_client.py:23-53 | the whole wrapper call as passes over the script (stated by `Requests.RequestUses`, `Requests.RequestClock`, `Requests.RequestAttempts` and the lemmas below) |
| Requests.OutcomesPartition | twitter_client.py:35-53 | every transport outcome is exactly one of: goes to `except`, a readable 429, or an answer |
| Requests.Classify | twitter_client.py:35-53 | one attempt: a transport error, an unreadable reset, an error status or an empty body raise; a 429 waits `max(reset - now, 60)`; otherwise the body (partitioned by `Requests.OutcomesPartition`) |
| Requests.RequestUses | twitter_client.py:23-53 | the wrapper consumes at most the script, an unsupported verb consumes nothing, and the result is the body of the last outcome consumed (or `None`) |
| Requests.RequestClockSum | twitter_client.py:36-51 | the clock after the wrapper is the clock before plus the sum of the sleeps it made |
| Requests.RequestSleepsPositive | twitter_client.py:38-51 | every sleep of the wrapper is positive |
| Requests.RequestClock | twitter_client.py:23-53 | the wrapper's clock advances by exactly its sleeps and never runs backwards |
| Requests.RequestAttempts | twitter_client.py:23-53 | at least one attempt, at most the outcomes used plus `MAX_RETRIES + 1`; without reaching the transport exactly the remaining budget |
| Requests.FailuresExhaustRetries | twitter_client.py:46-53 | when every outcome within the budget fails, the wrapper attempts until the budget is gone, sleeps the remaining backoffs and returns `None` |
| Requests.FourAttemptsThenNone | twitter_client.py:46-53 | four failing outcomes from a fresh call: 4 attempts, sleeps 1, 2 and 4 seconds, 7 seconds in all, result `None` |
| Requests.UnsupportedNeverAnswers | twitter_client.py:28-33 | a verb other than GET/POST never reaches the transport: 4 attempts, sleeps 1, 2 and 4 seconds, result `None` |
| Requests.RateLimitRestartsFresh | twitter_client.py:35-41 | a readable 429 sleeps `max(reset - now, 60)` (900 without the header), at least 60 seconds, then continues exactly as a fresh call with retry count 0 |
| Requests.ThrottlesThenAnswer | twitter_client.py:35-53 | any number of 429s, then failures within the retry budget, then an answer: the wrapper returns that answer |
| Twitter.Payload | twitter_client.py:137-139 | the posted object has the text, and the reply reference exactly when `reply_to` is truthy |
| Twitter.CreateTweet | twitter_client.py:135-147 | posts `Payload` through the wrapper's POST from the given clock, and reports success exactly when an outcome was used and the last one used answered with `data` |
| Twitter.CreateTweetAnswered | twitter_client.py:135-147 | a first outcome that answers with `data` makes the post succeed |
| Twitter.CreateTweetGivesUp | twitter_client.py:135-147 | four failing outcomes make the post fail, after 1 + 2 + 4 seconds of back-off |
| Twitter.Lookup | twitter_client.py:210-216 | the user found has the author's id and comes from the list; none found means no user has that id |
| Twitter.LookupLastWins | twitter_client.py:210-216 | as in a dict comprehension, the last user with an id wins |
| Twitter.Joined | twitter_client.py:219-221 | one joined tweet: only `username` and `verified` change; `verified` is always set; the username is a value exactly when the author is among the included users |
| Twitter.JoinAll | twitter_client.py:209-221 | no result (the `KeyError` that makes the call return `[]`) exactly when some tweet lacks `author_id`; otherwise the same number of tweets, each `Joined` with its author, in place |
| Twitter.JoinAuthors | twitter_client.py:218-221 | the join loop computes `JoinAll` |
| Twitter.Shape | twitter_client.py:206-226 | `[]` without a response or `data`; `data` untouched without `includes.users`; with it, every tweet `Joined` in place when all have `author_id`, and `[]` when one lacks it |
| Twitter.ShapeTweets | twitter_client.py:206-226 | the shaping computes `Shape`; never more tweets than `data`, with ids and texts kept in place |
| Twitter.Recent | twitter_client.py:254-263 | the two-hour filter as a function on tweets that all have `created_at`: those newer than the cutoff, in order (stated by `Twitter.RecentKeepsExactlyNewer`) |
| Twitter.RecentKeepsExactlyNewer | twitter_client.py:255-263 | a tweet is kept by the two-hour filter exactly when it was created strictly after the cutoff |
| Twitter.FilterRecent | twitter_client.py:254-266 | the filter loop yields `Recent` on the tweets; a tweet without `created_at` makes the call return `[]` |
| Twitter.GetUserTweets | twitter_client.py:233-266 | `[]` when the user lookup fails or there is no `data`; otherwise `Recent` of `data` with the cutoff two hours back when every tweet has `created_at`, and `[]` when one lacks it; every tweet returned is from `data` and created in the last two hours |
| Twitter.TwitterClient.constructor | twitter_client.py:21 | the client starts without a user id |
| Twitter.TwitterClient.GetUserId | twitter_client.py:55-64 | a cached id is returned without a request; otherwise one GET, and the id is cached only from an answer with `data` |
| Twitter.TwitterClient.Retweet | twitter_client.py:149-174 | no POST without a user id, and then failure with the clock where `get_user_id` left it; otherwise the POST is the wrapper's request from that clock, success exactly when it answers with `data`, and the clock ends where the POST ends |
| Twitter.TwitterClient.Unretweet | twitter_client.py:176-187 | always reports failure |
| Twitter.TwitterClient.UnlikeTweet | twitter_client.py:322-333 | always reports failure |
| Twitter.TwitterClient.GetMentions | twitter_client.py:189-230 | `[]` without a user id, with the clock where `get_user_id` left it; otherwise `Shape` of the wrapper's GET from that clock, and the clock ends where the GET ends |
| Twitter.SearchTweets | twitter_client.py:268-304 | `Shape` of the wrapper's GET from the given clock; `[]` when it yields nothing; the clock ends where the request ends |
| ResponseCleaning.MatchAt | ai_client.py:25-55 | a match is never empty and never longer than the rest of the text |
| ResponseCleaning.FootnoteAt | ai_client.py:25 | the citation pattern at the start of a string |
| ResponseCleaning.BoldAt | ai_client.py:28 | the bold pattern at the start of a string, capturing its body |
| ResponseCleaning.DelimitedAt | ai_client.py:31-43 | the italic and inline-code patterns at the start of a string, capturing the body |
| ResponseCleaning.NumberedAt | ai_client.py:34 | the numbered-list pattern at the start of a string |
| ResponseCleaning.MarkThenSpaceAt | ai_client.py:37-52 | the bullet and blockquote patterns at the start of a string |
| ResponseCleaning.CodeBlockAt | ai_client.py:40 | the code-block pattern at the start of a string |
| ResponseCleaning.HeadingAt | ai_client.py:46 | the heading pattern at the start of a string |
| ResponseCleaning.LinkAt | ai_client.py:49 | the link pattern at the start of a string, capturing the link text |
| ResponseCleaning.WhitespaceAt | ai_client.py:55 | a whitespace run at the start of a string, replaced by one space |
| ResponseCleaning.Rewrite | ai_client.py:25-55 | `re.sub` as a left-to-right scan (stated by `ResponseCleaning.RewriteUntouched`, `ResponseCleaning.RewriteSkipsPrefix` and `ResponseCleaning.RewriteAfterMatch`) |
| ResponseCleaning.Strip | ai_client.py:57 | `strip()` (stated by `ResponseCleaning.StripIsTrimmedSlice`) |
| ResponseCleaning.CleanResponse | ai_client.py:21-22 | `""` for `None` or the empty text |
| ResponseCleaning.DigitsSpan | ai_client.py:25 | `\d+` spans exactly the leading digits |
| ResponseCleaning.SpacesSpan | ai_client.py:34 | `\s+` spans exactly the leading whitespace |
| ResponseCleaning.RunOfSpan | ai_client.py:46 | `#+` spans exactly the leading run of `#` |
| ResponseCleaning.UntilSpan | ai_client.py:25 | a negated class such as `[^】]+` spans exactly the text before the first closing character |
| ResponseCleaning.WhitespacePassCollapses | ai_client.py:55 | after the whitespace pass every whitespace character is a single space and no two are adjacent |
| ResponseCleaning.WhitespacePassKeepsCollapsed | ai_client.py:55 | the whitespace pass leaves collapsed text unchanged |
| ResponseCleaning.StripIsTrimmedSlice | ai_client.py:57 | `strip()` yields a slice of its input that neither starts nor ends with whitespace |
| ResponseCleaning.CleanResponseIsTidy | ai_client.py:19-57 | the cleaned text has no leading or trailing whitespace, only single spaces, and no two of them adjacent |
| ResponseCleaning.RewriteUntouched | ai_client.py:25-55 | a substitution leaves text in which its pattern cannot start unchanged |
| ResponseCleaning.RewriteSkipsPrefix | ai_client.py:25-55 | a substitution copies a prefix in which its pattern cannot start |
| ResponseCleaning.RewriteAfterMatch | ai_client.py:25-55 | after a match, the substitution emits the replacement and resumes right after the match |
| ResponseCleaning.RewriteOneMatch | ai_client.py:25-55 | text with exactly one match between quiet parts gets exactly that match replaced |
| ResponseCleaning.BoldMatchesWrapped | ai_client.py:28 | `**x**` matches the bold pattern as a whole, capturing `x` |
| ResponseCleaning.BoldUnwraps | ai_client.py:28 | the bold pass turns `**x**` into `x` when `x` has no `*` |
| ResponseCleaning.InlineCodeMatchesWrapped | ai_client.py:43 | `` `x` `` matches the inline-code pattern as a whole, capturing `x` |
| ResponseCleaning.InlineCodeUnwraps | ai_client.py:43 | the inline-code pass turns `` `x` `` into `x` when `x` has no backquote |
| ResponseCleaning.LinkMatchesWrapped | ai_client.py:49 | `[text](url)` matches the link pattern as a whole, capturing `text` |
| ResponseCleaning.LinkUnwraps | ai_client.py:49 | the link pass turns `[text](url)` into `text` when `text` has no `]` and `url` has no `)` |
| ResponseCleaning.FootnoteMatchesFront | ai_client.py:25 | a citation `【d:d†body】` matches the footnote pattern as a whole, whatever follows |
| ResponseCleaning.StageCitation | ai_client.py:25 | the footnote pass deletes a citation between text it cannot touch |
| ResponseCleaning.PipelineStages | ai_client.py:24-55 | the eleven passes in order compose from the footnote, bold, six quiet, link and final two stages |
| ResponseCleaning.CleanResponseUnwrapsMarkup | ai_client.py:19-57 | bold text, a citation and a link around plain words clean to the words and the link text, separated by single spaces |
| ResponseCleaning.CleanResponseExample | ai_client.py:24-57 | `**Hi** there【4:0†note.txt】 [link](http://x)` cleans to `Hi there link` |
| ResponseCleaning.Truncate | ai_client.py:100-101 | at most 280 characters; shorter text unchanged; longer text becomes its first 277 characters and `...` |
| ResponseCleaning.TruncateIdempotent | ai_client.py:100-101 | truncating twice is truncating once |
| AiClient.FirstTerminal | ai_client.py:111-132 | the position of the first poll that ends the wait: none before it ends it, and it does when it exists |
| AiClient.WaitForRun | ai_client.py:110-132 | the wait yields the run exactly when the first terminal poll is `completed`; it polls up to that poll and sleeps 500 ms after each earlier one |
| AiClient.CompletesAfterWaiting | ai_client.py:118-128 | `n` non-terminal polls then `completed`: the run is returned after `n` sleeps |
| AiClient.GivesUpOnFirstFailure | ai_client.py:118-132 | a retrieval error, or `failed`/`expired`/`cancelled`/`requires_action` after non-terminal polls, ends the wait without a run |
| AiClient.FirstText | ai_client.py:94-95 | the position of the first text item: no text before it, and it is text when it exists |
| AiClient.GetResponse | ai_client.py:59-108 | a reply exactly when the run was started and completed, the listing succeeded and the newest message is the assistant's with a text item; the reply is that first text cleaned and truncated, at most 280 long |
| AiClient.LaterTextIgnored | ai_client.py:92-102 | text items after the first never reach the reply |
| Mentions.YoungMentions | mention_processor.py:37-45 | the kept mentions come from the input and are all within the age limit |
| Mentions.YoungMentionsKeepsAll | mention_processor.py:37-43 | every mention within the age limit is kept |
| Mentions.YoungMentionsHead | mention_processor.py:47-49 | the first kept mention is the first young one of the input |
| Mentions.Username | mention_processor.py:62-64 | `author.username`, else `username`, else `user_` + `author_id`, else `user_unknown`; never empty |
| Mentions.AiRequest | mention_processor.py:60-69 | the assistant is asked exactly when the mention has an id and a text, with the chosen username and the text |
| Mentions.ProcessMention | mention_processor.py:58-79 | a reply is posted exactly when the mention has an id and a text and the answer is non-empty; it carries the answer and replies to the mention |
| Mentions.MentionProcessor.constructor | mention_processor.py:11-16 | a processor starts with the age limit and no user id or last mention id |
| Mentions.MentionProcessor.Initialize | mention_processor.py:18-22 | fetches both ids exactly when no user id is known, and otherwise changes nothing |
| Mentions.MentionProcessor.KeepYoung | mention_processor.py:34-45 | the filter loop yields exactly `YoungMentions` |
| Mentions.MentionProcessor.GetMentions | mention_processor.py:24-56 | `[]` without a user id; otherwise the young mentions, with `last_mention_id` set to the first one's id; without a young mention (or when the first lacks an id) `[]` and `last_mention_id` as `initialize` left it |
| Scheduler.Admit | main.py:22-33 | an admission never moves the clock back and touches only the clock and that limiter's deque |
| Scheduler.ShouldProcess | main.py:63-71 | a task is due once its interval has passed since its stamp (used by `SchedulerProofs.GateImpliesInnerGuard`) |
| Scheduler.IsTweetRecent | main.py:35-38 | created at most `max_age_minutes` minutes before now (used by `SchedulerProofs.MentionsSound`) |
| Scheduler.MentionsFrom | main.py:134-138 | the mention loop (stated by `SchedulerProofs.MentionsSound` and `SchedulerProofs.MentionsComplete`) |
| Scheduler.ProcessMentionsRun | main.py:125-140 | `process_mentions` (stated by `SchedulerProofs.ProcessMentionsEffect`) |
| Scheduler.HandleAccountTweet | main.py:101-115 | one new recent tweet of an account (stated by `SchedulerProofs.HandleSound`) |
| Scheduler.AccountTweetsFrom | main.py:92-115 | one account's tweet loop (stated by `SchedulerProofs.AccountTweetsSound` and `SchedulerProofs.AccountTweetsComplete`) |
| Scheduler.AccountStep | main.py:80-121 | one account: acquire, fetch, its tweets, the pause (stated by `SchedulerProofs.AccountsSound`) |
| Scheduler.AccountsFrom | main.py:79-121 | the accounts loop (stated by `SchedulerProofs.AccountsSound` and `SchedulerProofs.AccountsComplete`) |
| Scheduler.ProcessAccountsRun | main.py:73-123 | `process_accounts` (stated by `SchedulerProofs.ProcessAccountsEffect`) |
| Scheduler.HashtagTweetsFrom | main.py:158-189 | one hashtag's tweet loop (stated by `SchedulerProofs.HashtagTweetsSound`) |
| Scheduler.HashtagStep | main.py:151-191 | one hashtag: acquire, search, its tweets, the pause (stated by `SchedulerProofs.HashtagsSound`) |
| Scheduler.HashtagsFrom | main.py:150-191 | the hashtags loop (stated by `SchedulerProofs.HashtagsSound`) |
| Scheduler.ProcessHashtagsRun | main.py:144-193 | `process_hashtags` (stated by `SchedulerProofs.ProcessHashtagsEffect`) |
| Scheduler.Cleaned | main.py:195-198 | the ids cleanup keeps (stated by `SchedulerProofs.CleanupKeepsRecent`) |
| Scheduler.TickRun | main.py:205-234 | one pass of `main`'s loop (stated by `SchedulerProofs.TickEffect`) |
| Scheduler.Take | main.py:134 | `mentions[:3]`: the first three, or all when there are fewer |
| Scheduler.TwitterBot.constructor | main.py:42-61 | the bot starts with empty deques, no seen ids, all stamps 0, no actions |
| Scheduler.TwitterBot.Acquire | main.py:22-33 | the bot's state after an `acquire` is `Admit` of the state before |
| Scheduler.TwitterBot.ProcessMentions | main.py:125-140 | ends in the state `ProcessMentionsRun` describes, and raises exactly when it does |
| Scheduler.TwitterBot.HandleTweet | main.py:101-115 | ends in the state `HandleAccountTweet` describes |
| Scheduler.TwitterBot.ProcessAccountTweets | main.py:92-115 | ends in the state `AccountTweetsFrom` describes, and raises exactly when it does |
| Scheduler.TwitterBot.ProcessAccount | main.py:80-121 | ends in the state `AccountStep` describes |
| Scheduler.TwitterBot.ProcessAccounts | main.py:73-123 | ends in the state `ProcessAccountsRun` describes |
| Scheduler.TwitterBot.ProcessHashtagTweets | main.py:158-189 | ends in the state `HashtagTweetsFrom` describes, and raises exactly when it does |
| Scheduler.TwitterBot.ProcessHashtag | main.py:151-191 | ends in the state `HashtagStep` describes, and raises exactly when it does |
| Scheduler.TwitterBot.HashtagsLoop | main.py:150-191 | ends in the state `HashtagsFrom` describes, and raises exactly when it does |
| Scheduler.TwitterBot.ProcessHashtags | main.py:144-193 | ends in the state `ProcessHashtagsRun` describes, and raises exactly when it does |
| Scheduler.TwitterBot.CleanupProcessedTweets | main.py:195-198 | only the seen ids change, to `Cleaned` of them |
| Scheduler.TwitterBot.Tick | main.py:205-234 | one pass of the loop ends in the state `TickRun` describes, and raises exactly when it does |
| SchedulerProofs.GateImpliesInnerGuard | main.py:57-61 | a task the gate lets through also passes the task's own guard (180/180, 900/900, 1800/900) |
| SchedulerProofs.TooSoonIsNoOp | main.py:126-128 | a task called within its guard (also lines 74-76 and 145-147) changes nothing at all |
| SchedulerProofs.MentionsSound | main.py:134-138 | the mention loop only appends, only marks what it hands on, and hands on only fetched mentions created no earlier than 5 minutes before it started |
| SchedulerProofs.MentionsComplete | main.py:134-138 | when the loop finishes, every mention with an id that is recent at its end is seen |
| SchedulerProofs.ProcessMentionsEffect | main.py:125-140 | a due mentions run hands on at most three of `mentions[:3]`, each unseen and recent, marks exactly those, and stamps the task only when it returns normally |
| SchedulerProofs.HandleSound | main.py:101-113 | a new recent tweet of a listed account is answered exactly when the account is monitored and retweeted exactly when it is a retweet target, nothing else is done, and the tweet is marked seen |
| SchedulerProofs.AccountTweetsSound | main.py:92-115 | one account's loop answers only tweets newer than the cutoff and only for a monitored account, retweets only for a retweet target, and marks exactly what it acts on |
| SchedulerProofs.AccountTweetsComplete | main.py:92-115 | when one account's loop finishes, every recent tweet with an id is seen |
| SchedulerProofs.AccountTweetsDone | main.py:92-115 | over tweets that all have an id and a creation time, one account's loop never raises |
| SchedulerProofs.AccountsSound | main.py:79-121 | the accounts loop acts only as monitoring and retweeting allow, on tweets newer than two hours before it started |
| SchedulerProofs.AccountsComplete | main.py:79-121 | over timelines whose tweets all have an id and a creation time, every fetched tweet newer than two hours before the loop ends has been seen by then |
| SchedulerProofs.ProcessAccountsEffect | main.py:73-123 | a due accounts run acts only as allowed, marks exactly what it acts on, and always stamps the task; over well-formed timelines every fetched tweet newer than two hours before it ends is seen |
| SchedulerProofs.HashtagVisitSound | main.py:160-184 | an unseen tweet not by a monitored author is answered and marked seen exactly when its metrics meet the like threshold |
| SchedulerProofs.HashtagTweetsSound | main.py:159-189 | one hashtag's loop answers at most three tweets, each liked enough and not by a monitored author, and marks exactly those |
| SchedulerProofs.HashtagsSound | main.py:150-191 | the hashtags loop answers at most three tweets for each hashtag, counted over the whole loop, each qualifying |
| SchedulerProofs.HashtagTweetsComplete | main.py:158-189 | when one hashtag's loop ends normally having answered fewer than three, every later result with an id, not by a monitored author and liked enough is seen: the cap counts answered tweets only, so nothing qualifying is passed over |
| SchedulerProofs.HashtagStepComplete | main.py:151-191 | one hashtag's step keeps the earlier actions, every action it adds is a reply for that hashtag, and when it adds fewer than three every qualifying result of its search is seen |
| SchedulerProofs.HashtagsComplete | main.py:150-191 | when the hashtags loop ends normally, every qualifying result of each search whose hashtag got fewer than three replies is seen |
| SchedulerProofs.ProcessHashtagsEffect | main.py:144-193 | a due hashtags run answers only qualifying tweets, marks only tweets that met the threshold, and stamps the task only when it returns normally; when it does, every qualifying result of each search whose hashtag got fewer than three replies has been seen |
| SchedulerProofs.EmptyMonitoredNameSilencesHashtags | main.py:163-166 | an empty monitored name is contained in every username, so a due hashtags run answers nothing and marks nothing |
| SchedulerProofs.CleanupKeepsRecent | main.py:195-198 | cleanup keeps exactly the ids with `now - id < 3600`; cleaning twice is cleaning once; an id dropped is never kept by a later cleanup |
| SchedulerProofs.CleanupKeepsLargeIds | main.py:197-198 | an id larger than `now - 3600` (every real snowflake id) is never evicted |
| SchedulerProofs.MentionsStageEffect | main.py:208-211 | the mentions step of the loop only appends fresh actions, and its stamp either stays or moves by at least 180 seconds |
| SchedulerProofs.AccountsStageEffect | main.py:214-217 | the accounts step only appends fresh actions, and its stamp either stays or moves by at least 900 seconds |
| SchedulerProofs.HashtagsStageEffect | main.py:220-223 | the hashtags step only appends fresh actions, and its stamp either stays or moves by at least 1800 seconds |
| SchedulerProofs.TickEffect | main.py:205-234 | a pass keeps the earlier actions and adds only actions on unseen tweets; the clock advances by at least 60 seconds (the error delay after an exception); only cleanup forgets ids; each stamp stays or moves by at least its interval |

## Left out

- The HTTP/OAuth transport and the OpenAI SDK. They are oracles: scripts of outcomes, fetched lists, poll results and listings are parameters.
- asyncio. Nothing runs concurrently; a sleep advances the integer clock.
- The unbounded `while True` of `main`. One pass is modelled (`Scheduler.TwitterBot.Tick`), with the exception branch as a `Raised` outcome that sleeps the error delay.
- The command line, logging, dotenv and the environment variables. config.py's constants are Dafny constants or fields of `Settings`.
- Floating point. `time.time()`, `math.pow` and `float(tweet_id)` become integer arithmetic; a fractional reset or wait is not represented.
- ISO-8601 parsing. A creation time is an integer instant or absent; a malformed timestamp is not modelled.
- A non-numeric tweet id. Ids are naturals, so the `ValueError` that `float(tweet_id)` would raise in `cleanup_processed_tweets` cannot occur.
- Unicode case folding and Unicode digits. `lower()`/`upper()` act on ASCII letters only, and `\d` on ASCII digits only; `\s` and `strip()` use Python's whitespace set.
- A general regular-expression engine. Only the eleven patterns of `clean_response` are modelled, each as a matcher on the start of a string and a left-to-right rewrite.
- `is_user_verified`, `get_tweet_metrics`, `get_tweet_thread`, `_get_latest_mention_id`, `get_user_id_by_username` and `like_tweet`: field lookups around the request wrapper. Their results are parameters (the metrics map, the latest mention id, the looked-up user id).
- The time spent inside the calls the scheduler makes into the gateway and the assistant: `get_user_tweets` (main.py:83), `get_mentions` (main.py:131), `search_tweets` (main.py:155), `get_tweet_metrics` (main.py:169), `process_mention` and `retweet`. Their request wrappers sleep, and `Requests.Request` returns the clock they end at, but the scheduler's clock does not move by it. So the model's two-hour cutoff of the accounts task (main.py:89-90), the `now` of `is_tweet_recent` and the instants the limiters record can be earlier than the source's by the time those calls took.
- The return value of `retweet` inside `process_accounts`. The source only logs it.
- Scheduler.TwitterBot.Acquire: the bot keeps its four limiter deques as values (`Logs`) and admits through `Scheduler.Admit`. That function does the computation `RateLimiting.RateLimiter.Acquire` is proved to do, but the bot does not hold `RateLimiter` objects, so aliasing between limiters is not modelled.
- AiClient.WaitForRun: `_wait_for_run` (ai_client.py:110-132) has no timeout and polls for as long as the status stays non-terminal. The model's poll script is finite, and a script that runs out ends the wait without a run, as a retrieval that raises does; a run that never leaves a non-terminal status is not modelled.
- Requests.Pass: the 429 path calls `time.time()` twice (the header default and the current time). The model reads the clock once, so a missing header gives exactly 900 seconds.
