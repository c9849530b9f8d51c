/**
 * The reply side of ai_client.py: waiting for an assistant run to finish
 * (`AIClient._wait_for_run`) and turning the newest assistant message into
 * tweet text (`AIClient.get_response`).
 *
 * The OpenAI service is an oracle.  The run's status as seen by successive
 * `runs.retrieve` calls is a script of polls; a script that runs out behaves
 * like a retrieval that raises.  Thread and run creation and the message
 * listing are given as their outcomes.  Sleeping is counted in milliseconds.
 */
module AiClient {
  import opened Wrappers
  import opened ResponseCleaning

  /** `self.poll_interval`, 0.5 s. */
  const PollIntervalMs: nat := 500

  /** What one `runs.retrieve` call yields: the run's status, or an exception. */
  datatype Poll = Status(status: string) | RetrieveError

  /** Statuses on which the wait gives up and yields no run. */
  predicate Abandoned(status: string) {
    status == "failed" || status == "expired" || status == "cancelled" || status == "requires_action"
  }

  /** A poll that ends the wait, one way or the other. */
  predicate Terminal(p: Poll) {
    p.RetrieveError? || p.status == "completed" || Abandoned(p.status)
  }

  /** The position of the first poll that ends the wait (`|polls|` if none does). */
  function FirstTerminal(polls: seq<Poll>): (k: nat)
    ensures k <= |polls|
    ensures forall i :: 0 <= i < k ==> !Terminal(polls[i])
    ensures k < |polls| ==> Terminal(polls[k])
  {
    if polls == [] || Terminal(polls[0]) then 0 else 1 + FirstTerminal(polls[1..])
  }

  /** The first terminal poll is the only one that can be: anything before it must not end the wait. */
  lemma FirstTerminalUnique(polls: seq<Poll>, k: nat)
    requires k <= |polls|
    requires forall i :: 0 <= i < k ==> !Terminal(polls[i])
    requires k < |polls| ==> Terminal(polls[k])
    ensures FirstTerminal(polls) == k
  {
  }

  /** Whether the wait yields the run: the first poll that ends it reports `completed`. */
  predicate Completes(polls: seq<Poll>) {
    var k := FirstTerminal(polls);
    k < |polls| && polls[k] == Status("completed")
  }

  /**
   * `_wait_for_run`: poll until the status is terminal, sleeping
   * `PollIntervalMs` after every other status.  Yields whether the run
   * completed, how many polls were made and how long it slept.
   */
  method WaitForRun(polls: seq<Poll>) returns (completed: bool, used: nat, sleptMs: nat)
    ensures completed <==> Completes(polls)
    ensures var k := FirstTerminal(polls);
            && used == (if k < |polls| then k + 1 else |polls|)
            && sleptMs == PollIntervalMs * k
  {
    var i := 0;
    sleptMs := 0;
    while i < |polls|
      invariant i <= |polls|
      invariant forall j :: 0 <= j < i ==> !Terminal(polls[j])
      invariant sleptMs == PollIntervalMs * i
    {
      var p := polls[i];
      if p.RetrieveError? || p.status == "completed" || Abandoned(p.status) {
        FirstTerminalUnique(polls, i);
        return p == Status("completed"), i + 1, sleptMs;
      }
      sleptMs := sleptMs + PollIntervalMs;
      i := i + 1;
    }
    FirstTerminalUnique(polls, i);
    return false, |polls|, sleptMs;
  }

  /** Runs that keep reporting a non-terminal status `n` times and then complete yield the run after `n` sleeps. */
  lemma CompletesAfterWaiting(polls: seq<Poll>, n: nat)
    requires n < |polls| && polls[n] == Status("completed")
    requires forall i :: 0 <= i < n ==> !Terminal(polls[i])
    ensures Completes(polls) && FirstTerminal(polls) == n
  {
    FirstTerminalUnique(polls, n);
  }

  /** A retrieval error, a failed, expired or cancelled run, or one that requires action ends the wait without a run. */
  lemma GivesUpOnFirstFailure(polls: seq<Poll>, n: nat)
    requires n < |polls| && (polls[n].RetrieveError? || Abandoned(polls[n].status))
    requires forall i :: 0 <= i < n ==> !Terminal(polls[i])
    ensures !Completes(polls) && FirstTerminal(polls) == n
  {
    FirstTerminalUnique(polls, n);
  }

  /** One content item of a message: a text item carries its value. */
  datatype Content = Text(value: string) | NonText(kind: string)

  datatype Message = Message(role: string, content: seq<Content>)

  /** The position of the first text item (`|items|` if there is none). */
  function FirstText(items: seq<Content>): (k: nat)
    ensures k <= |items|
    ensures forall i :: 0 <= i < k ==> !items[i].Text?
    ensures k < |items| ==> items[k].Text?
  {
    if items == [] || items[0].Text? then 0 else 1 + FirstText(items[1..])
  }

  /** The text the reply is made from: the first text item of the newest message, if it is the assistant's. */
  function ReplySource(newest: seq<Message>): Option<string> {
    if newest != [] && newest[0].role == "assistant" && FirstText(newest[0].content) < |newest[0].content|
    then Some(newest[0].content[FirstText(newest[0].content)].value)
    else None
  }

  /**
   * `get_response`.  `started` says whether creating the thread and the run
   * succeeded; `polls` is what the wait sees; `listed` is the listing of the
   * newest message (`None` when the listing raises).
   */
  method GetResponse(started: bool, polls: seq<Poll>, listed: Option<seq<Message>>) returns (reply: Option<string>)
    ensures reply.Some? <==> started && Completes(polls) && listed.Some? && ReplySource(listed.value).Some?
    ensures reply.Some? ==> reply.value == Truncate(CleanResponse(Some(ReplySource(listed.value).value)))
    ensures reply.Some? ==> |reply.value| <= TweetMaxLength
  {
    if !started {
      return None;
    }
    var completed, _, _ := WaitForRun(polls);
    if !completed || listed.None? {
      return None;
    }
    var newest := listed.value;
    if newest != [] && newest[0].role == "assistant" {
      var items := newest[0].content;
      var i := 0;
      while i < |items|
        invariant i <= |items|
        invariant forall j :: 0 <= j < i ==> !items[j].Text?
      {
        if items[i].Text? {
          assert FirstText(items) == i by {
            FirstTextUnique(items, i);
          }
          var cleaned := CleanResponse(Some(items[i].value));
          if |cleaned| > TweetMaxLength {
            cleaned := cleaned[..TweetMaxLength - 3] + Ellipsis;
          }
          return Some(cleaned);
        }
        i := i + 1;
      }
      FirstTextUnique(items, i);
    }
    return None;
  }

  lemma FirstTextUnique(items: seq<Content>, k: nat)
    requires k <= |items|
    requires forall i :: 0 <= i < k ==> !items[i].Text?
    requires k < |items| ==> items[k].Text?
    ensures FirstText(items) == k
  {
  }

  /** Text items after the first one never reach the reply. */
  lemma LaterTextIgnored(m: Message, rest: seq<Content>)
    requires m.role == "assistant" && FirstText(m.content) < |m.content|
    ensures ReplySource([Message(m.role, m.content + rest)]) == ReplySource([m])
  {
    var k := FirstText(m.content);
    FirstTextUnique(m.content + rest, k);
  }
}
