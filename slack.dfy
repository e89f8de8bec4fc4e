/**
 * The demo chat on the landing page: a fixed conversation whose static
 * messages appear at once and whose remaining messages are revealed one
 * by one, each after its delay and a typing indicator.
 */
module Slack {
  datatype Message = Message(user: string, text: string, isStatic: bool, delay: nat, time: string)

  const Messages: seq<Message> := [
    Message("traction", "Morning. Your Google Ads CAC spiked to $11.20 yesterday. I paused 2 underperformers and I\U{2019}m testing new copy.", true, 0, "9:41 AM"),
    Message("sarah", "Which campaigns did you pause?", true, 0, "9:43 AM"),
    Message("traction", "\U{201C}Q4 Retarget \U{2014} Broad\U{201D} and \U{201C}Startup Founders v2.\U{201D} Both were above $14 CAC for 3 days. I reallocated budget to \U{201C}DevTools IC\U{201D} which is at $3.80.", true, 0, "9:43 AM"),
    Message("traction", "New ad set is live. CTR is up 34% in the first hour.", false, 1500, "10:12 AM"),
    Message("mike", "Can we push more budget there?", false, 1800, "10:15 AM"),
    Message("traction", "Already on it \U{2014} scaled 2x. Also found a Reddit thread in r/saas about exactly what we build. Drafted a reply for review.", false, 1200, "10:16 AM"),
    Message("traction", "EOD update: CAC is down to $4.12. 23 signups today. Back to building. \U{270C}\U{FE0F}", false, 1500, "5:30 PM")
  ]

  const TypingDuration: nat := 800

  /** `MESSAGES.filter((m) => m.isStatic).length`. */
  function StaticCount(msgs: seq<Message>): (n: nat)
    ensures n <= |msgs|
  {
    if msgs == [] then 0 else (if msgs[0].isStatic then 1 else 0) + StaticCount(msgs[1..])
  }

  /** The conversation opens with its three static messages. */
  lemma {:induction false} ThreeStatic()
    ensures StaticCount(Messages) == 3
    ensures forall i :: 0 <= i < |Messages| ==> (Messages[i].isStatic <==> i < 3)
  {
    var m := Messages;
    assert m[1..][1..] == m[2..] && m[2..][1..] == m[3..];
    NoStatic(m[3..]);
  }

  lemma {:induction false} NoStatic(msgs: seq<Message>)
    requires forall i :: 0 <= i < |msgs| ==> !msgs[i].isStatic
    ensures StaticCount(msgs) == 0
    decreases |msgs|
  {
    if msgs != [] {
      NoStatic(msgs[1..]);
    }
  }

  /** A message directly under one from the same user at the same time
      drops its header. */
  predicate IsGrouped(msgs: seq<Message>, i: nat)
    requires i < |msgs|
  {
    i > 0 && msgs[i - 1].user == msgs[i].user && msgs[i - 1].time == msgs[i].time
  }

  /** One rendered message. */
  datatype Row = Row(message: Message, animate: bool, grouped: bool)

  /** The rendered list: the first `visibleCount` messages, those past the
      static ones animated. */
  function Rows(msgs: seq<Message>, visibleCount: nat, staticCount: nat): (rows: seq<Row>)
    ensures |rows| == if visibleCount <= |msgs| then visibleCount else |msgs|
    ensures forall i :: 0 <= i < |rows| ==> rows[i].message == msgs[i]
    ensures forall i :: 0 <= i < |rows| ==> (rows[i].animate <==> i >= staticCount)
    ensures forall i :: 0 <= i < |rows| ==> (rows[i].grouped <==> IsGrouped(msgs, i))
  {
    var n := if visibleCount <= |msgs| then visibleCount else |msgs|;
    seq(n, i requires 0 <= i < n => Row(msgs[i], i >= staticCount, IsGrouped(msgs, i)))
  }

  /** In this conversation no message shares both user and time with the
      one above it, so every message shows its header. */
  lemma NoneGrouped()
    ensures forall i :: 0 <= i < |Messages| ==> !IsGrouped(Messages, i)
  {
    var m := Messages;
    assert m[1].user != m[0].user && m[2].user != m[1].user;
    assert m[3].time != m[2].time && m[4].user != m[3].user && m[5].user != m[4].user;
    assert m[6].time != m[5].time;
  }

  /** The timer `showNext` has pending: the delay before the next message
      or the typing indicator before it appears. */
  datatype Timer = NoTimer | DelayTimer(delay: nat) | TypingTimer(duration: nat)

  /** The state of `useMessageSequence`, including the closure's
      `currentIndex` and the pending timer. */
  datatype Reveal = Reveal(hasPlayed: bool, reducedMotion: bool, visibleCount: nat, isTyping: bool,
                           typingUser: string, currentIndex: nat, timer: Timer)

  function Initial(reducedMotion: bool): Reveal {
    Reveal(false, reducedMotion, 0, false, "traction", 0, NoTimer)
  }

  /** `showNext`: schedule the next message's delay, if any is left. */
  function Scheduled(s: Reveal): Reveal {
    if s.currentIndex >= |Messages| then s.(timer := NoTimer)
    else s.(timer := DelayTimer(Messages[s.currentIndex].delay))
  }

  /** `playSequence`. */
  function Play(s: Reveal): Reveal {
    if s.hasPlayed then s
    else if s.reducedMotion then s.(hasPlayed := true, visibleCount := |Messages|)
    else
      var k := StaticCount(Messages);
      Scheduled(s.(hasPlayed := true, visibleCount := k, currentIndex := k))
  }

  /** The pending timer fires. */
  function Fire(s: Reveal): Reveal {
    match s.timer
    case NoTimer => s
    case DelayTimer(_) =>
      if s.currentIndex < |Messages| then
        s.(typingUser := Messages[s.currentIndex].user, isTyping := true, timer := TypingTimer(TypingDuration))
      else s
    case TypingTimer(_) =>
      var next := s.currentIndex + 1;
      Scheduled(s.(isTyping := false, currentIndex := next, visibleCount := next))
  }

  function Fires(s: Reveal, n: nat): Reveal
    decreases n
  {
    if n == 0 then s else Fires(Fire(s), n - 1)
  }

  /** What holds between any two events. */
  predicate Inv(s: Reveal) {
    s.visibleCount <= |Messages|
    && (!s.hasPlayed ==> s.visibleCount == 0 && !s.isTyping && s.timer == NoTimer)
    && (s.hasPlayed && s.reducedMotion ==> s.visibleCount == |Messages| && !s.isTyping && s.timer == NoTimer)
    && (s.hasPlayed && !s.reducedMotion ==>
          StaticCount(Messages) <= s.visibleCount && s.currentIndex == s.visibleCount
          && (s.timer == NoTimer ==> s.visibleCount == |Messages| && !s.isTyping)
          && (s.timer.DelayTimer? ==> s.visibleCount < |Messages| && !s.isTyping
                                      && s.timer.delay == Messages[s.currentIndex].delay)
          && (s.timer.TypingTimer? ==> s.visibleCount < |Messages| && s.isTyping
                                       && s.typingUser == Messages[s.currentIndex].user))
  }

  /** Playing has an effect only the first time; with reduced motion it
      shows everything at once, otherwise the static messages, with the
      first delay pending. */
  lemma PlayOnce(s: Reveal)
    requires Inv(s)
    ensures Inv(Play(s)) && Play(Play(s)) == Play(s)
    ensures s.hasPlayed ==> Play(s) == s
    ensures !s.hasPlayed && s.reducedMotion ==>
      Play(s).visibleCount == |Messages| && !Play(s).isTyping && Play(s).timer == NoTimer
    ensures !s.hasPlayed && !s.reducedMotion ==>
      Play(s).visibleCount == 3 && Play(s).timer == DelayTimer(Messages[3].delay)
  {
    ThreeStatic();
  }

  /** Each firing keeps the invariant; a typing phase shows the user of
      the message about to appear, and its end reveals exactly one more
      message and clears the indicator. */
  lemma TickStep(s: Reveal)
    requires Inv(s)
    ensures Inv(Fire(s))
    ensures s.timer.DelayTimer? ==>
      Fire(s).isTyping && Fire(s).typingUser == Messages[s.visibleCount].user
      && Fire(s).visibleCount == s.visibleCount
    ensures s.timer.TypingTimer? ==> !Fire(s).isTyping && Fire(s).visibleCount == s.visibleCount + 1
    ensures s.timer == NoTimer ==> Fire(s) == s
  {
    ThreeStatic();
  }

  /** From any pending delay, two firings per remaining message reveal the
      whole conversation and leave nothing pending. */
  lemma {:induction false} RevealsAll(s: Reveal)
    requires Inv(s) && s.timer.DelayTimer?
    ensures var t := Fires(s, 2 * (|Messages| - s.visibleCount));
      t.visibleCount == |Messages| && !t.isTyping && t.timer == NoTimer
    decreases |Messages| - s.visibleCount
  {
    TickStep(s);
    var s1 := Fire(s);
    TickStep(s1);
    var s2 := Fire(s1);
    var n := 2 * (|Messages| - s.visibleCount);
    assert Fires(s, n) == Fires(s2, n - 2);
    if s2.timer.DelayTimer? {
      RevealsAll(s2);
    }
  }

  /** Once everything is shown nothing fires any more. */
  lemma {:induction false} Settled(s: Reveal, n: nat)
    requires Inv(s) && s.timer == NoTimer
    ensures Fires(s, n) == s
    decreases n
  {
    if n > 0 {
      TickStep(s);
      Settled(Fire(s), n - 1);
    }
  }

  /** The whole animated run: after playing, eight firings reveal all
      seven messages. */
  lemma AnimatedRun()
    ensures var t := Fires(Play(Initial(false)), 8);
      t.visibleCount == |Messages| && !t.isTyping && t.timer == NoTimer
  {
    PlayOnce(Initial(false));
    RevealsAll(Play(Initial(false)));
  }

  /** With reduced motion there is no typing phase at all. */
  lemma ReducedRun(n: nat)
    ensures Fires(Play(Initial(true)), n) == Play(Initial(true))
    ensures Play(Initial(true)).visibleCount == |Messages| && !Play(Initial(true)).isTyping
  {
    PlayOnce(Initial(true));
    Settled(Play(Initial(true)), n);
  }

  class MessageSequence {
    var hasPlayed: bool
    var reducedMotion: bool
    var visibleCount: nat
    var isTyping: bool
    var typingUser: string
    var currentIndex: nat
    var timer: Timer

    function State(): Reveal
      reads this
    {
      Reveal(hasPlayed, reducedMotion, visibleCount, isTyping, typingUser, currentIndex, timer)
    }

    ghost predicate Valid()
      reads this
    {
      Inv(State())
    }

    /** The hook's initial state; `reducedMotion` is the page's
        `prefers-reduced-motion` setting. */
    constructor (reducedMotion: bool)
      ensures Valid() && State() == Initial(reducedMotion)
    {
      hasPlayed := false;
      this.reducedMotion := reducedMotion;
      visibleCount := 0;
      isTyping := false;
      typingUser := "traction";
      currentIndex := 0;
      timer := NoTimer;
    }

    method ShowNext()
      modifies this`timer
      ensures State() == Scheduled(old(State()))
    {
      if currentIndex >= |Messages| {
        timer := NoTimer;
        return;
      }
      timer := DelayTimer(Messages[currentIndex].delay);
    }

    /** `playSequence`, called when the chat scrolls into view. */
    method PlaySequence()
      requires Valid()
      modifies this`hasPlayed, this`visibleCount, this`currentIndex, this`timer
      ensures Valid() && State() == Play(old(State()))
    {
      PlayOnce(State());
      if hasPlayed {
        return;
      }
      hasPlayed := true;
      if reducedMotion {
        visibleCount := |Messages|;
        return;
      }
      visibleCount := StaticCount(Messages);
      currentIndex := StaticCount(Messages);
      ShowNext();
    }

    /** The pending timer fires. */
    method Tick()
      requires Valid()
      modifies this`visibleCount, this`isTyping, this`typingUser, this`currentIndex, this`timer
      ensures Valid() && State() == Fire(old(State()))
    {
      TickStep(State());
      match timer {
        case NoTimer =>
        case DelayTimer(_) =>
          if currentIndex < |Messages| {
            typingUser := Messages[currentIndex].user;
            isTyping := true;
            timer := TypingTimer(TypingDuration);
          }
        case TypingTimer(_) =>
          isTyping := false;
          currentIndex := currentIndex + 1;
          visibleCount := currentIndex;
          ShowNext();
      }
    }

    /** The messages the chat renders. */
    function Rendered(): seq<Row>
      reads this
    {
      Rows(Messages, visibleCount, StaticCount(Messages))
    }
  }
}
