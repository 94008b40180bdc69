/**
 * The reaction-driven page controller: a session over a non-empty, ordered
 * list of embeds, shown one at a time in a single host message and moved by
 * reactions of the invoking user.
 *
 * Calls into the chat platform are not performed here: each one is appended
 * to the session's `log` as an Effect, and what the platform answers is a
 * parameter of the method that makes the call. An exception that escapes an
 * asynchronous task is the task's TaskResult.
 */
module Paginator {
  import opened Wrappers
  import opened Text
  import opened Embeds
  import Utils

  type UserId = int
  type MessageId = int

  /** The handlers of the action table, named after their `exec_` methods. */
  datatype Action =
    | TrackPrevious   // first page
    | ArrowBackward   // previous page
    | StopButton      // close the session
    | ArrowForward    // next page
    | TrackNext       // last page
    | JumpToPlayer    // the extra binding of the wiki paginator

  /** What a platform call came back with. */
  datatype Outcome = Ok | NotFound | Forbidden

  datatype PyError = KeyError | IndexError | AttributeError | PlatformError(outcome: Outcome)

  /** How a task ended: normally, or by an exception that escaped it. */
  datatype TaskResult = Done | Raised(error: PyError)

  /** A reaction: `str(reaction.emoji)` and the id of the message it was put on. */
  datatype Reaction = Reaction(symbol: string, messageId: MessageId)

  /** What one wait of the event loop ends with. */
  datatype Incoming = ReactionAdded(reaction: Reaction, userId: UserId) | TimedOut

  /** The platform's answers to the calls one action makes. */
  datatype Replies = Replies(delete: Outcome, ack: Outcome, edit: Outcome)

  /** The platform calls and task spawns of a session, in the order they are made. */
  datatype Effect =
    | Send(embed: Embed)
    | SpawnWaitLoop
    | AddReaction(emoji: string)
    | ClearReactions
    | SpawnAction(reaction: Reaction)
    | DeleteHost
    | AckInvocation(emoji: string)
    | Edit(embed: Embed)
    | RemoveReaction(emoji: string, userId: UserId)

  const EmptyPagesMessage := "There should be at least 1 embed object provided to the paginator"

  /** The reaction put on the invoking message when the session is closed. */
  const AckEmoji := "check:383917703083327489"

  const FirstSymbol := "\U{23EE}"
  const PreviousSymbol := "\U{25C0}"
  const StopSymbol := "\U{23F9}"
  const NextSymbol := "\U{25B6}"
  const LastSymbol := "\U{23ED}"

  /** The built-in bindings in declaration order, which is the order their reactions are attached in. */
  const DefaultOrder: seq<string> := [FirstSymbol, PreviousSymbol, StopSymbol, NextSymbol, LastSymbol]

  const DefaultEmojis: map<string, Action> := map[
    FirstSymbol := TrackPrevious,
    PreviousSymbol := ArrowBackward,
    StopSymbol := StopButton,
    NextSymbol := ArrowForward,
    LastSymbol := TrackNext]

  /** The emoji name the wiki paginator binds its jump action to. */
  const JumpEmojiName := "28000000"

  predicate Distinct(s: seq<string>)
  {
    forall i, j :: 0 <= i < j < |s| ==> s[i] != s[j]
  }

  // ---------------------------------------------------------------------
  // Footer decoration at construction

  function PageLabel(i: nat, n: nat): string
  {
    "Page " + NatStr(i + 1) + " of " + NatStr(n)
  }

  /**
   * The footer page i of n gets: "Page {i+1} of {n}", followed by " | " and
   * the chosen text when that is non-empty; the chosen text is the
   * footer_text option if given, else the page's own footer text. The icon stays.
   */
  function DecoratedFooter(i: nat, n: nat, original: Footer, footerText: Option<string>): Footer
  {
    var chosen := footerText.GetOr(original.text);
    Footer(if chosen != "" then PageLabel(i, n) + " | " + chosen else PageLabel(i, n), original.iconUrl)
  }

  /** The footer rewriting loop of the constructor. */
  method DecorateFooters(embeds: seq<Embed>, footerText: Option<string>, editFooter: bool) returns (r: seq<Embed>)
    ensures |r| == |embeds|
    ensures !editFooter || |embeds| <= 1 ==> r == embeds
    ensures editFooter && |embeds| > 1 ==>
      forall i :: 0 <= i < |embeds| ==>
        r[i] == embeds[i].(footer := DecoratedFooter(i, |embeds|, embeds[i].footer, footerText))
  {
    r := embeds;
    if editFooter && |embeds| > 1 {
      for i := 0 to |embeds|
        invariant |r| == |embeds|
        invariant forall j :: 0 <= j < i ==>
          r[j] == embeds[j].(footer := DecoratedFooter(j, |embeds|, embeds[j].footer, footerText))
        invariant forall j :: i <= j < |embeds| ==> r[j] == embeds[j]
      {
        var em := r[i];
        var text := PageLabel(i, |embeds|);
        var chosen := if footerText.Some? then footerText.value else em.footer.text;
        if chosen != "" {
          text := text + " | " + chosen;
        }
        r := r[i := em.(footer := Footer(text, em.footer.iconUrl))];
      }
    }
  }

  /** Two digit strings followed by the same kind of non-digit text are equal when the whole texts are. */
  lemma {:induction false} DigitPrefixesEqual(d1: string, d2: string, t1: string, t2: string)
    requires AllDigits(d1) && AllDigits(d2)
    requires |t1| >= 1 && |t2| >= 1 && !IsDigit(t1[0]) && !IsDigit(t2[0])
    requires d1 + t1 == d2 + t2
    ensures d1 == d2
    decreases |d1|
  {
    assert (d1 + t1)[0] == if |d1| > 0 then d1[0] else t1[0];
    assert (d2 + t2)[0] == if |d2| > 0 then d2[0] else t2[0];
    if |d1| > 0 && |d2| > 0 {
      assert (d1 + t1)[1..] == d1[1..] + t1;
      assert (d2 + t2)[1..] == d2[1..] + t2;
      DigitPrefixesEqual(d1[1..], d2[1..], t1, t2);
      assert d1 == [d1[0]] + d1[1..];
      assert d2 == [d2[0]] + d2[1..];
    }
  }

  /** What follows the page number in a decorated footer: " of {n}" and the chosen text, if any. */
  function LabelTail(n: nat, chosen: string): string
  {
    " of " + NatStr(n) + (if chosen != "" then " | " + chosen else "")
  }

  lemma DecoratedText(i: nat, n: nat, f: Footer, footerText: Option<string>)
    ensures DecoratedFooter(i, n, f, footerText).text == "Page " + (NatStr(i + 1) + LabelTail(n, footerText.GetOr(f.text)))
    ensures LabelTail(n, footerText.GetOr(f.text))[0] == ' '
  {
  }

  lemma DropPrefix(p: string, x: string, y: string)
    requires p + x == p + y
    ensures x == y
  {
    assert (p + x)[|p|..] == x;
    assert (p + y)[|p|..] == y;
  }

  /** Different pages of one session never get the same footer text: the page number tells them apart. */
  lemma PageFootersDiffer(i: nat, j: nat, n: nat, f1: Footer, f2: Footer, footerText: Option<string>)
    requires i != j
    ensures DecoratedFooter(i, n, f1, footerText).text != DecoratedFooter(j, n, f2, footerText).text
  {
    DecoratedText(i, n, f1, footerText);
    DecoratedText(j, n, f2, footerText);
    var tail1 := LabelTail(n, footerText.GetOr(f1.text));
    var tail2 := LabelTail(n, footerText.GetOr(f2.text));
    if DecoratedFooter(i, n, f1, footerText).text == DecoratedFooter(j, n, f2, footerText).text {
      DropPrefix("Page ", NatStr(i + 1) + tail1, NatStr(j + 1) + tail2);
      DigitPrefixesEqual(NatStr(i + 1), NatStr(j + 1), tail1, tail2);
      NatStrInjective(i + 1, j + 1);
    }
  }

  /** With footer_text "Statsy", three pages are labelled "Page k of 3 | Statsy" whatever their own footers say. */
  lemma ThreePageFooters(f: Footer)
    ensures DecoratedFooter(0, 3, f, Some("Statsy")).text == "Page 1 of 3 | Statsy"
    ensures DecoratedFooter(1, 3, f, Some("Statsy")).text == "Page 2 of 3 | Statsy"
    ensures DecoratedFooter(2, 3, f, Some("Statsy")).text == "Page 3 of 3 | Statsy"
    ensures DecoratedFooter(2, 3, f, Some("Statsy")).iconUrl == f.iconUrl
  {
    assert NatStr(1) == "1" && NatStr(2) == "2" && NatStr(3) == "3";
  }

  /** Without footer_text, a page whose footer is empty gets the bare "Page i of n". */
  lemma EmptyFooterGetsBareLabel(i: nat, n: nat, f: Footer)
    requires f.text == ""
    ensures DecoratedFooter(i, n, f, None).text == PageLabel(i, n)
  {
  }

  // ---------------------------------------------------------------------
  // Index arithmetic of the actions

  /** `list[i]` in Python: negative indices count from the end; anything else out of range raises IndexError. */
  function PyIndex<T>(s: seq<T>, i: int): (r: Option<T>)
    ensures 0 <= i < |s| ==> r == Some(s[i])
    ensures -|s| <= i < 0 ==> r == Some(s[|s| + i])
    ensures (i >= |s| || i < -|s|) ==> r == None
    ensures r.Some? ==> |s| > 0 && r.value == s[i % |s|]
  {
    if 0 <= i < |s| then Some(s[i]) else if -|s| <= i < 0 then Some(s[|s| + i]) else None
  }

  /** The effect of an action's `exec_` handler on the page index, with n pages. */
  function Step(a: Action, page: int, n: nat, brawlerPower: int): (r: int)
    ensures a == ArrowBackward ==> page - 1 <= r <= page
    ensures a == ArrowForward ==> page <= r <= page + 1
    ensures a == StopButton ==> r == page
    ensures n >= 1 && (a == TrackPrevious || a == TrackNext) ==> 0 <= r < n
    ensures a == JumpToPlayer ==> r == brawlerPower
  {
    match a
    case TrackPrevious => 0
    case ArrowBackward => if page != 0 then page - 1 else page
    case StopButton => page
    case ArrowForward => if page != n - 1 then page + 1 else page
    case TrackNext => n - 1
    case JumpToPlayer => brawlerPower
  }

  /** The built-in actions keep the index inside the page list; the jump does when its target is a page. */
  lemma StepStaysInRange(a: Action, page: int, n: nat, brawlerPower: int)
    requires 0 <= page < n
    requires a == JumpToPlayer ==> 0 <= brawlerPower < n
    ensures 0 <= Step(a, page, n, brawlerPower) < n
  {
  }

  /** Previous moves back by exactly one page, except on the first page, where it does nothing. */
  lemma PreviousClamps(page: int, n: nat, bp: int)
    requires 0 <= page < n
    ensures page == 0 ==> Step(ArrowBackward, page, n, bp) == 0
    ensures page > 0 ==> Step(ArrowBackward, page, n, bp) == page - 1
  {
  }

  /** Next moves on by exactly one page, except on the last page, where it does nothing. */
  lemma NextClamps(page: int, n: nat, bp: int)
    requires 0 <= page < n
    ensures page == n - 1 ==> Step(ArrowForward, page, n, bp) == n - 1
    ensures page < n - 1 ==> Step(ArrowForward, page, n, bp) == page + 1
  {
  }

  /** The jump ignores the page count: it goes to brawler_power whatever that is. */
  lemma JumpIsUnchecked(page: int, n: nat, bp: int)
    ensures Step(JumpToPlayer, page, n, bp) == bp
    ensures bp >= n ==> PyIndex(seq(n, _ => 0), Step(JumpToPlayer, page, n, bp)) == None
  {
  }

  /** The index after a run of actions. */
  function Navigate(actions: seq<Action>, page: int, n: nat, bp: int): int
    decreases |actions|
  {
    if actions == [] then page else Navigate(actions[1..], Step(actions[0], page, n, bp), n, bp)
  }

  /** Any run of built-in actions keeps the index a valid page: there is no wrap-around past either end. */
  lemma {:induction false} NavigateStaysInRange(actions: seq<Action>, page: int, n: nat, bp: int)
    requires 0 <= page < n
    requires forall k :: 0 <= k < |actions| ==> actions[k] != JumpToPlayer
    ensures 0 <= Navigate(actions, page, n, bp) < n
    decreases |actions|
  {
    if actions != [] {
      StepStaysInRange(actions[0], page, n, bp);
      NavigateStaysInRange(actions[1..], Step(actions[0], page, n, bp), n, bp);
    }
  }

  /** First then last ends on the last page, from wherever the session was. */
  lemma FirstThenLast(page: int, n: nat, bp: int)
    requires n >= 1
    ensures Navigate([TrackPrevious, TrackNext], page, n, bp) == n - 1
  {
    assert [TrackPrevious, TrackNext][1..] == [TrackNext];
  }

  // ---------------------------------------------------------------------
  // The reaction filter

  /**
   * `_reaction_check`: once the session is not running every event is let
   * through (the wait loop then ends without acting on it); while it runs, an
   * event qualifies exactly when the invoking user put a bound symbol on the
   * host message.
   */
  function Qualifies(running: bool, userId: UserId, authorId: UserId, symbol: string,
                     bound: set<string>, messageId: MessageId, host: Option<MessageId>): (ok: bool)
    ensures !running ==> ok
    ensures running ==> (ok <==> userId == authorId && symbol in bound && host == Some(messageId))
  {
    if !running then true
    else userId == authorId && symbol in bound && host.Some? && messageId == host.value
  }

  /** An event the filter lets through while the session runs names an action of the table, so its lookup cannot fail. */
  lemma QualifiedSymbolIsBound(userId: UserId, authorId: UserId, symbol: string,
                               emojis: map<string, Action>, messageId: MessageId, host: Option<MessageId>)
    requires Qualifies(true, userId, authorId, symbol, emojis.Keys, messageId, host)
    ensures symbol in emojis && userId == authorId
  {
  }

  /** What the wait loop does with a run of events while the session runs: the tasks it spawns, and whether a timeout stopped it. */
  function WaitEffects(events: seq<Incoming>, authorId: UserId, bound: set<string>, host: MessageId): (r: (seq<Effect>, bool))
    decreases |events|
  {
    if events == [] then ([], false)
    else match events[0]
      case TimedOut => ([ClearReactions], true)
      case ReactionAdded(reaction, userId) =>
        var rest := WaitEffects(events[1..], authorId, bound, host);
        if Qualifies(true, userId, authorId, reaction.symbol, bound, reaction.messageId, Some(host))
        then ([SpawnAction(reaction)] + rest.0, rest.1)
        else rest
  }

  /** The wait loop spawns an action only for a bound symbol the invoking user put on the host message. */
  lemma {:induction false} WaitSpawnsOnlyQualified(events: seq<Incoming>, authorId: UserId, bound: set<string>, host: MessageId, k: nat)
    requires k < |WaitEffects(events, authorId, bound, host).0|
    requires WaitEffects(events, authorId, bound, host).0[k].SpawnAction?
    ensures var r := WaitEffects(events, authorId, bound, host).0[k].reaction;
      r.symbol in bound && r.messageId == host
    decreases |events|
  {
    if events != [] && events[0].ReactionAdded? {
      var rest := WaitEffects(events[1..], authorId, bound, host);
      var e := events[0];
      if Qualifies(true, e.userId, authorId, e.reaction.symbol, bound, e.reaction.messageId, Some(host)) {
        if k > 0 {
          WaitSpawnsOnlyQualified(events[1..], authorId, bound, host, k - 1);
        }
      } else {
        WaitSpawnsOnlyQualified(events[1..], authorId, bound, host, k);
      }
    }
  }

  /** A timeout clears the reactions exactly once, as the last thing the loop does. */
  lemma {:induction false} TimeoutStopsOnce(events: seq<Incoming>, authorId: UserId, bound: set<string>, host: MessageId)
    ensures var r := WaitEffects(events, authorId, bound, host);
      r.1 <==> TimedOut in events
    ensures var r := WaitEffects(events, authorId, bound, host);
      (r.1 ==> |r.0| >= 1 && r.0[|r.0| - 1] == ClearReactions)
      && (forall k :: 0 <= k < |r.0| - 1 ==> r.0[k] != ClearReactions)
      && (!r.1 ==> ClearReactions !in r.0)
    decreases |events|
  {
    if events != [] && events[0].ReactionAdded? {
      TimeoutStopsOnce(events[1..], authorId, bound, host);
      assert TimedOut in events <==> TimedOut in events[1..] by {
        assert events == [events[0]] + events[1..];
      }
    }
  }

  /** The reaction start() attaches for a bound symbol: a custom emoji `<:name:id>` is attached as `name:id`. */
  function ReactionName(symbol: string): string
  {
    if |symbol| >= 2 && symbol[..2] == "<:" then (if |symbol| >= 3 then symbol[2..|symbol| - 1] else "") else symbol
  }

  /** The answer the platform gave the k-th attachment; a missing answer is a success. */
  function AnswerAt(answers: seq<Outcome>, k: nat): Outcome
  {
    if k < |answers| then answers[k] else Ok
  }

  /** The index of the first symbol whose attachment fails, or |order| if none does. */
  function FirstFailure(order: seq<string>, answers: seq<Outcome>, from: nat): (f: nat)
    requires from <= |order|
    ensures from <= f <= |order|
    ensures forall k :: from <= k < f ==> AnswerAt(answers, k) == Ok
    ensures f < |order| ==> AnswerAt(answers, f) != Ok
    decreases |order| - from
  {
    if from == |order| then from
    else if AnswerAt(answers, from) != Ok then from
    else FirstFailure(order, answers, from + 1)
  }

  function Attachments(symbols: seq<string>): (r: seq<Effect>)
    ensures |r| == |symbols|
    ensures forall k :: 0 <= k < |symbols| ==> r[k] == AddReaction(ReactionName(symbols[k]))
  {
    seq(|symbols|, k requires 0 <= k < |symbols| => AddReaction(ReactionName(symbols[k])))
  }

  lemma AttachmentsSnoc(symbols: seq<string>, i: nat)
    requires i < |symbols|
    ensures Attachments(symbols[..i + 1]) == Attachments(symbols[..i]) + [AddReaction(ReactionName(symbols[i]))]
  {
    assert symbols[..i + 1] == symbols[..i] + [symbols[i]];
  }

  // ---------------------------------------------------------------------
  // The session

  class Paginator {
    /** The pages, with their footers as the constructor left them. */
    const embeds: seq<Embed>
    /** The user who invoked the command: only their reactions count. */
    const authorId: UserId
    /** Seconds of inactivity after which the session stops (the wait itself is not modelled). */
    const timeout: int
    var page: int
    var running: bool
    /** The action table: bound symbol to action. */
    var emojis: map<string, Action>
    /** The bound symbols in insertion order, the order of the table's iteration. */
    var emojiOrder: seq<string>
    /** The jump target of the wiki paginator; 0 (falsy) for a plain one. */
    var brawlerPower: int
    /** The host message, once start() has sent it. */
    var message: Option<MessageId>
    /** Whether the stop action deleted the host message. */
    var deleted: bool
    var log: seq<Effect>

    ghost predicate Valid()
      reads this
    {
      && |embeds| >= 1
      && (running ==> message.Some?)
      && Distinct(emojiOrder)
      && emojis.Keys == set s | s in emojiOrder
    }

    /** The index is a page of the session. */
    ghost predicate InRange()
      reads this
    {
      0 <= page < |embeds|
    }

    /** The jump, if it is bound at all, targets a page. */
    ghost predicate JumpSafe()
      reads this
    {
      JumpToPlayer in emojis.Values ==> 0 <= brawlerPower < |embeds|
    }

    /** `__init__` after its empty check: decorates the footers and sets the initial state. */
    constructor (authorId: UserId, pages: seq<Embed>, footerText: Option<string>, editFooter: bool, timeout: int)
      requires |pages| >= 1
      ensures Valid() && InRange() && JumpSafe()
      ensures |embeds| == |pages|
      ensures !editFooter || |pages| == 1 ==> embeds == pages
      ensures editFooter && |pages| > 1 ==>
        forall i :: 0 <= i < |pages| ==>
          embeds[i] == pages[i].(footer := DecoratedFooter(i, |pages|, pages[i].footer, footerText))
      ensures this.authorId == authorId && this.timeout == timeout
      ensures page == 0 && !running && !deleted
      ensures emojis == DefaultEmojis && emojiOrder == DefaultOrder
      ensures brawlerPower == 0 && message == None && log == []
    {
      var decorated := DecorateFooters(pages, footerText, editFooter);
      embeds := decorated;
      this.authorId := authorId;
      this.timeout := timeout;
      page := 0;
      running := false;
      emojis := DefaultEmojis;
      emojiOrder := DefaultOrder;
      brawlerPower := 0;
      message := None;
      deleted := false;
      log := [];
      new;
      assert DefaultEmojis.Keys == set s | s in DefaultOrder;
      assert JumpToPlayer !in DefaultEmojis.Values;
    }

    /** `WikiPaginator.__init__` after the base constructor: binds the jump action when brawler_power is truthy. */
    method InstallJump(power: int, table: Utils.EmojiTable)
      requires Valid()
      modifies this`brawlerPower, this`emojis, this`emojiOrder
      ensures Valid()
      ensures brawlerPower == power
      ensures power == 0 ==> emojis == old(emojis) && emojiOrder == old(emojiOrder)
      ensures power != 0 ==>
        var symbol := Utils.EmojiFor(Utils.StrName(JumpEmojiName), true, table);
        && emojis == old(emojis)[symbol := JumpToPlayer]
        && emojiOrder == (if symbol in old(emojiOrder) then old(emojiOrder) else old(emojiOrder) + [symbol])
    {
      brawlerPower := power;
      if power != 0 {
        var symbol := Utils.E(Utils.StrName(JumpEmojiName), true, table);
        if symbol !in emojiOrder {
          emojiOrder := emojiOrder + [symbol];
        }
        emojis := emojis[symbol := JumpToPlayer];
      }
    }

    /**
     * `start`: sends page 0; with one page that is all. Otherwise marks the
     * session running, spawns the wait loop and attaches a reaction per bound
     * symbol in table order; the first attachment the platform refuses raises
     * and ends the loop over the symbols.
     */
    method Start(sent: Outcome, newMessage: MessageId, answers: seq<Outcome>) returns (result: TaskResult)
      requires Valid()
      modifies this`running, this`message, this`deleted, this`log
      ensures Valid()
      ensures sent != Ok ==>
        && result == Raised(PlatformError(sent)) && log == old(log) + [Send(embeds[0])]
        && running == old(running) && message == old(message) && deleted == old(deleted)
      ensures sent == Ok ==> message == Some(newMessage) && !deleted
      ensures sent == Ok && |embeds| == 1 ==>
        result == Done && running == old(running) && log == old(log) + [Send(embeds[0])]
      ensures sent == Ok && |embeds| > 1 ==>
        var f := FirstFailure(emojiOrder, answers, 0);
        && running
        && log == old(log) + [Send(embeds[0]), SpawnWaitLoop]
                  + Attachments(emojiOrder[..if f < |emojiOrder| then f + 1 else f])
        && result == (if f < |emojiOrder| then Raised(PlatformError(AnswerAt(answers, f))) else Done)
    {
      log := log + [Send(embeds[0])];
      if sent != Ok {
        return Raised(PlatformError(sent));
      }
      message := Some(newMessage);
      deleted := false;
      if |embeds| == 1 {
        return Done;
      }
      running := true;
      log := log + [SpawnWaitLoop];
      assert log == old(log) + [Send(embeds[0]), SpawnWaitLoop];
      result := AttachReactions(answers);
    }

    /** The loop of `start` over the bound symbols: one reaction each, until the platform refuses one. */
    method AttachReactions(answers: seq<Outcome>) returns (result: TaskResult)
      modifies this`log
      ensures
        var f := FirstFailure(emojiOrder, answers, 0);
        && log == old(log) + Attachments(emojiOrder[..if f < |emojiOrder| then f + 1 else f])
        && result == (if f < |emojiOrder| then Raised(PlatformError(AnswerAt(answers, f))) else Done)
    {
      ghost var before := log;
      var i := 0;
      while i < |emojiOrder|
        invariant 0 <= i <= |emojiOrder|
        invariant forall k :: 0 <= k < i ==> AnswerAt(answers, k) == Ok
        invariant FirstFailure(emojiOrder, answers, 0) == FirstFailure(emojiOrder, answers, i)
        invariant log == before + Attachments(emojiOrder[..i])
      {
        log := log + [AddReaction(ReactionName(emojiOrder[i]))];
        AttachmentsSnoc(emojiOrder, i);
        if AnswerAt(answers, i) != Ok {
          return Raised(PlatformError(AnswerAt(answers, i)));
        }
        FirstFailureSkips(emojiOrder, answers, i);
        i := i + 1;
      }
      assert emojiOrder[..i] == emojiOrder;
      return Done;
    }

    /** `stop`: ends the session and tries to clear the reactions; a refused or missing message is ignored. */
    method Stop() returns (result: TaskResult)
      requires Valid()
      modifies this`running, this`log
      ensures Valid()
      ensures !running
      ensures old(message).Some? ==> log == old(log) + [ClearReactions] && result == Done
      ensures old(message).None? ==> log == old(log) && result == Raised(AttributeError)
    {
      running := false;
      if message.None? {
        return Raised(AttributeError);
      }
      log := log + [ClearReactions];
      return Done;
    }

    /** Stopping a second time: the session stays stopped and only the clearing of the reactions is repeated. */
    method StopTwice() returns (first: TaskResult, second: TaskResult)
      requires Valid()
      modifies this`running, this`log
      ensures Valid() && !running && first == second
      ensures old(message).Some? ==> log == old(log) + [ClearReactions, ClearReactions]
      ensures old(message).None? ==> log == old(log)
    {
      first := Stop();
      second := Stop();
    }

    /**
     * `_wait_for_reaction` over the events the reaction source delivers:
     * while the session runs, a timeout stops it and every qualifying
     * reaction spawns its action as a task of its own.
     */
    method WaitForReaction(events: seq<Incoming>)
      requires Valid()
      modifies this`running, this`log
      ensures Valid()
      ensures !old(running) ==> log == old(log) && !running
      ensures old(running) ==>
        var w := WaitEffects(events, authorId, emojis.Keys, message.value);
        log == old(log) + w.0 && running == !w.1
    {
      var i := 0;
      while running && i < |events|
        invariant 0 <= i <= |events|
        invariant Valid()
        invariant !old(running) ==> log == old(log) && !running
        invariant old(running) && running ==>
          var w := WaitEffects(events, authorId, emojis.Keys, message.value);
          var v := WaitEffects(events[i..], authorId, emojis.Keys, message.value);
          old(log) + w.0 == log + v.0 && w.1 == v.1
        invariant old(running) && !running ==>
          var w := WaitEffects(events, authorId, emojis.Keys, message.value);
          log == old(log) + w.0 && w.1
      {
        assert events[i..][1..] == events[i + 1..];
        match events[i]
        case TimedOut =>
          var _ := Stop();
        case ReactionAdded(reaction, userId) =>
          if Qualifies(running, userId, authorId, reaction.symbol, emojis.Keys, reaction.messageId, message) {
            if running {
              log := log + [SpawnAction(reaction)];
            }
          }
        i := i + 1;
      }
    }

    /**
     * `_reaction_action`: looks the symbol up, runs its handler, shows the page
     * at the new index by editing the host message, and tries to remove the
     * user's reaction. A missing host message stops the session; any other
     * edit failure, a failed delete or acknowledgement of the stop handler,
     * an unbound symbol and an index outside the pages raise out of the task.
     */
    method ReactionAction(reaction: Reaction, replies: Replies) returns (result: TaskResult)
      requires Valid()
      modifies this`page, this`running, this`deleted, this`log
      ensures Valid()
      ensures old(InRange()) && JumpSafe() ==> InRange()
      // a stopped session ignores the event
      ensures !old(running) ==>
        page == old(page) && !running && deleted == old(deleted) && log == old(log) && result == Done
      // an unbound symbol raises before anything happens
      ensures old(running) && reaction.symbol !in emojis ==>
        page == old(page) && running && deleted == old(deleted) && log == old(log) && result == Raised(KeyError)
      // every handler moves the index as Step says
      ensures old(running) && reaction.symbol in emojis ==>
        page == Step(emojis[reaction.symbol], old(page), |embeds|, brawlerPower)
      // the stop handler deletes the host message and acknowledges the invocation
      ensures old(running) && reaction.symbol in emojis && emojis[reaction.symbol] == StopButton ==>
        && (replies.delete != Ok ==>
              log == old(log) + [DeleteHost] && running && deleted == old(deleted)
              && result == Raised(PlatformError(replies.delete)))
        && (replies.delete == Ok && replies.ack != Ok ==>
              log == old(log) + [DeleteHost, AckInvocation(AckEmoji)] && running && deleted
              && result == Raised(PlatformError(replies.ack)))
        && (replies.delete == Ok && replies.ack == Ok && PyIndex(embeds, page).Some? ==>
              log == old(log) + [DeleteHost, AckInvocation(AckEmoji), Edit(PyIndex(embeds, page).value),
                                 ClearReactions, RemoveReaction(reaction.symbol, authorId)]
              && !running && deleted && result == Done)
        && (replies.delete == Ok && replies.ack == Ok && PyIndex(embeds, page).None? ==>
              log == old(log) + [DeleteHost, AckInvocation(AckEmoji)] && running && deleted
              && result == Raised(IndexError))
      // a navigation handler shows the new page
      ensures old(running) && reaction.symbol in emojis && emojis[reaction.symbol] != StopButton ==>
        && deleted == old(deleted)
        && (PyIndex(embeds, page).None? ==> log == old(log) && running && result == Raised(IndexError))
        && (PyIndex(embeds, page).Some? ==>
              var shown := PyIndex(embeds, page).value;
              var edited := if deleted then NotFound else replies.edit;
              && (edited == Ok ==>
                    log == old(log) + [Edit(shown), RemoveReaction(reaction.symbol, authorId)]
                    && running && result == Done)
              && (edited == NotFound ==>
                    log == old(log) + [Edit(shown), ClearReactions, RemoveReaction(reaction.symbol, authorId)]
                    && !running && result == Done)
              && (edited == Forbidden ==>
                    log == old(log) + [Edit(shown)] && running && result == Raised(PlatformError(Forbidden))))
    {
      if !running {
        return Done;
      }
      if reaction.symbol !in emojis {
        return Raised(KeyError);
      }
      var action := emojis[reaction.symbol];
      if action == StopButton {
        log := log + [DeleteHost];
        if replies.delete != Ok {
          return Raised(PlatformError(replies.delete));
        }
        deleted := true;
        log := log + [AckInvocation(AckEmoji)];
        if replies.ack != Ok {
          return Raised(PlatformError(replies.ack));
        }
      } else {
        if InRange() && JumpSafe() {
          assert action in emojis.Values;
          StepStaysInRange(action, page, |embeds|, brawlerPower);
        }
        page := Step(action, page, |embeds|, brawlerPower);
      }
      result := ShowPage(reaction, replies.edit);
    }

    /**
     * The tail of `_reaction_action`: edits the host message to the page at
     * the index and removes the user's reaction; a deleted host message
     * answers the edit with NotFound, which stops the session.
     */
    method ShowPage(reaction: Reaction, edit: Outcome) returns (result: TaskResult)
      requires Valid() && running
      modifies this`running, this`log
      ensures Valid()
      ensures PyIndex(embeds, page).None? ==> log == old(log) && running && result == Raised(IndexError)
      ensures PyIndex(embeds, page).Some? ==>
        var shown := PyIndex(embeds, page).value;
        var edited := if deleted then NotFound else edit;
        && (edited == Ok ==>
              log == old(log) + [Edit(shown), RemoveReaction(reaction.symbol, authorId)]
              && running && result == Done)
        && (edited == NotFound ==>
              log == old(log) + [Edit(shown), ClearReactions, RemoveReaction(reaction.symbol, authorId)]
              && !running && result == Done)
        && (edited == Forbidden ==>
              log == old(log) + [Edit(shown)] && running && result == Raised(PlatformError(Forbidden)))
    {
      var shown := PyIndex(embeds, page);
      if shown.None? {
        return Raised(IndexError);
      }
      var edited := if deleted then NotFound else edit;
      log := log + [Edit(shown.value)];
      if edited == NotFound {
        var _ := Stop();
      } else if edited == Forbidden {
        return Raised(PlatformError(Forbidden));
      }
      log := log + [RemoveReaction(reaction.symbol, authorId)];
      return Done;
    }
  }

  lemma FirstFailureSkips(order: seq<string>, answers: seq<Outcome>, i: nat)
    requires i < |order| && AnswerAt(answers, i) == Ok
    ensures FirstFailure(order, answers, i) == FirstFailure(order, answers, i + 1)
  {
  }

  /** `Paginator(ctx, *embeds, **kwargs)`: fails at once, with no session, when there are no embeds. */
  method NewPaginator(authorId: UserId, pages: seq<Embed>, footerText: Option<string>, editFooter: bool, timeout: int)
    returns (r: Result<Paginator, string>)
    ensures r.Failure? <==> |pages| == 0
    ensures r.Failure? ==> r.error == EmptyPagesMessage
    ensures r.Success? ==>
      var p := r.value;
      && fresh(p) && p.Valid() && p.InRange() && p.JumpSafe()
      && |p.embeds| == |pages| && p.authorId == authorId
      && (!editFooter || |pages| == 1 ==> p.embeds == pages)
      && (editFooter && |pages| > 1 ==>
            forall i :: 0 <= i < |pages| ==>
              p.embeds[i] == pages[i].(footer := DecoratedFooter(i, |pages|, pages[i].footer, footerText)))
      && p.page == 0 && !p.running && !p.deleted
      && p.emojis == DefaultEmojis && p.emojiOrder == DefaultOrder
      && p.brawlerPower == 0 && p.message == None && p.log == []
  {
    if |pages| == 0 {
      return Failure(EmptyPagesMessage);
    }
    var p := new Paginator(authorId, pages, footerText, editFooter, timeout);
    return Success(p);
  }

  /** `WikiPaginator(ctx, brawler_power, *embeds, **kwargs)`. */
  method NewWikiPaginator(authorId: UserId, power: int, pages: seq<Embed>, footerText: Option<string>,
                          editFooter: bool, timeout: int, table: Utils.EmojiTable)
    returns (r: Result<Paginator, string>)
    ensures r.Failure? <==> |pages| == 0
    ensures r.Failure? ==> r.error == EmptyPagesMessage
    ensures r.Success? ==>
      var p := r.value;
      && fresh(p) && p.Valid() && p.InRange()
      && |p.embeds| == |pages| && p.authorId == authorId
      && (!editFooter || |pages| == 1 ==> p.embeds == pages)
      && (editFooter && |pages| > 1 ==>
            forall i :: 0 <= i < |pages| ==>
              p.embeds[i] == pages[i].(footer := DecoratedFooter(i, |pages|, pages[i].footer, footerText)))
      && p.page == 0 && !p.running && !p.deleted && p.message == None && p.log == []
    ensures r.Success? ==>
      var p := r.value;
      var symbol := Utils.EmojiFor(Utils.StrName(JumpEmojiName), true, table);
      && p.brawlerPower == power
      && (power == 0 ==> p.emojis == DefaultEmojis && p.emojiOrder == DefaultOrder)
      && (power != 0 ==> p.emojis == DefaultEmojis[symbol := JumpToPlayer]
                         && p.emojiOrder == (if symbol in DefaultOrder then DefaultOrder else DefaultOrder + [symbol]))
  {
    r := NewPaginator(authorId, pages, footerText, editFooter, timeout);
    if r.Success? {
      r.value.InstallJump(power, table);
    }
  }

  /** A started three-page session with footer_text "Statsy", showing its first page. */
  method OpenThreePages(a: Embed, b: Embed, c: Embed) returns (p: Paginator)
    ensures fresh(p) && p.Valid() && p.InRange() && p.JumpSafe()
    ensures p.running && p.page == 0 && p.message == Some(70) && !p.deleted
    ensures p.authorId == 7 && |p.embeds| == 3 && p.emojis == DefaultEmojis
    ensures p.embeds[1] == b.(footer := DecoratedFooter(1, 3, b.footer, Some("Statsy")))
  {
    var r := NewPaginator(7, [a, b, c], Some("Statsy"), true, 30);
    p := r.value;
    var started := p.Start(Ok, 70, []);
  }

  /**
   * A three-page session with footer_text "Statsy": next (which shows the
   * second page with its decorated footer), stop, and a reaction after the
   * stop that changes nothing.
   */
  method ThreePageSession(a: Embed, b: Embed, c: Embed) returns (shown: int, footer: string, stopped: bool, last: TaskResult)
    ensures shown == 1 && footer == "Page 2 of 3 | Statsy" && stopped && last == Done
  {
    var p := OpenThreePages(a, b, c);
    var moved := p.ReactionAction(Reaction(NextSymbol, 70), Replies(Ok, Ok, Ok));
    assert p.page == 1 && p.running;
    assert p.log[|p.log| - 2] == Edit(p.embeds[1]);
    footer := p.log[|p.log| - 2].embed.footer.text;
    ThreePageFooters(b.footer);
    var closed := p.ReactionAction(Reaction(StopSymbol, 70), Replies(Ok, Ok, Ok));
    assert p.deleted && !p.running && p.page == 1;
    last := p.ReactionAction(Reaction(NextSymbol, 70), Replies(Ok, Ok, Ok));
    shown, stopped := p.page, !p.running;
  }
}
