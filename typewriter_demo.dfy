/**
 * The landing page's scripted chat (components/ui/chat.tsx): an interval types each
 * scripted message one character per tick, and 600 ms after a message is complete the
 * demo moves on to the next, until the four messages are shown in full.
 */
module TypewriterDemo {

  datatype DemoRole = User | Ai

  datatype DemoMessage = DemoMessage(role: DemoRole, text: string)

  /** The script, one entry per step. */
  function Step(i: nat): DemoMessage
    requires i < 4
  {
    match i
    case 0 => DemoMessage(User, "List me how to initialise a repo")
    case 1 => DemoMessage(Ai, "1. Create a new directory\n" + "2. Run git init\n" + "3. Add files using git add .\n" +
      "4. Commit with git commit -m \"initial commit\"")
    case 2 => DemoMessage(User, "How do I push it to GitHub?")
    case 3 => DemoMessage(Ai, "1. Create a repository on GitHub\n" + "2. Add the remote origin\n" + "3. Set the main branch\n" +
      "4. Push your code to GitHub")
  }

  const StepCount: nat := 4

  const DemoSteps: seq<DemoMessage> := seq(StepCount, i requires 0 <= i < StepCount => Step(i))

  /** An upper bound on the length of a scripted message. */
  const MaxTextLength: nat := 200

  /** Every scripted message has something to type, and fits the bound. */
  lemma StepLengths(i: nat)
    requires i < StepCount
    ensures 1 <= |Step(i).text| < MaxTextLength
  {
    match i
    case 0 =>
    case 1 => AnswerLengths();
    case 2 =>
    case 3 => AnswerLengths();
  }

  lemma AnswerLengths()
    ensures |"1. Create a new directory\n"| + |"2. Run git init\n"| + |"3. Add files using git add .\n"| +
      |"4. Commit with git commit -m \"initial commit\""| < MaxTextLength
    ensures |"1. Create a repository on GitHub\n"| + |"2. Add the remote origin\n"| + |"3. Set the main branch\n"| +
      |"4. Push your code to GitHub"| < MaxTextLength
  {
  }

  /** The pause between a message typed in full and the next step. */
  const AdvanceDelayMs: nat := 600

  /** The interval's period: slower for the user's messages than for the replies. */
  function TickPeriodMs(role: DemoRole): nat {
    if role == User then 40 else 18
  }

  /** The time one step takes from its first tick to its advance: one period per
      character, then the pause. */
  function StepMs(m: DemoMessage): nat {
    |m.text| * TickPeriodMs(m.role) + AdvanceDelayMs
  }

  /** The time from mount until the first `n` steps have advanced. */
  function DoneMs(script: seq<DemoMessage>, n: nat): nat
    requires n <= |script|
  {
    if n == 0 then 0 else DoneMs(script, n - 1) + StepMs(script[n - 1])
  }

  /** The time from mount to the state with `step` steps advanced and `index` characters
      of the next one typed. */
  function ElapsedAt(script: seq<DemoMessage>, step: nat, index: nat): nat
    requires step <= |script|
  {
    DoneMs(script, step) + if step < |script| then index * TickPeriodMs(script[step].role) else 0
  }

  /** Finishing more steps never takes less time. */
  lemma {:induction false} DoneMsMonotone(script: seq<DemoMessage>, m: nat, n: nat)
    requires m <= n <= |script|
    ensures DoneMs(script, m) <= DoneMs(script, n)
  {
    if m < n {
      DoneMsMonotone(script, m, n - 1);
    }
  }

  /** The whole demo, from mount until the fourth message has advanced, takes 8792 ms:
      32 and 27 user characters at 40 ms, 116 and 108 reply characters at 18 ms, and four
      pauses of 600 ms. */
  lemma DemoDurationMs()
    ensures DoneMs(DemoSteps, StepCount) == 8792
  {
    assert |DemoSteps[0].text| == 32 && |DemoSteps[2].text| == 27;
    assert |DemoSteps[1].text| == 116 && |DemoSteps[3].text| == 108;
    assert DoneMs(DemoSteps, 1) == 1880;
    assert DoneMs(DemoSteps, 2) == 1880 + 2688;
    assert DoneMs(DemoSteps, 3) == 4568 + 1680;
    assert DoneMs(DemoSteps, 4) == 6248 + 2544;
  }

  /** A script the component can play: every message has something to type and fits the
      bound. */
  predicate Typeable(script: seq<DemoMessage>) {
    forall i :: 0 <= i < |script| ==> 1 <= |script[i].text| < MaxTextLength
  }

  lemma DemoStepsTypeable()
    ensures |DemoSteps| == StepCount && Typeable(DemoSteps)
  {
    forall i | 0 <= i < StepCount ensures 1 <= |DemoSteps[i].text| < MaxTextLength {
      StepLengths(i);
    }
  }

  /** Message `s` after `index` ticks: its role, and the first `index` characters. */
  function Partial(m: DemoMessage, index: nat): (r: DemoMessage)
    requires index <= |m.text|
    ensures r.role == m.role && r.text <= m.text && |r.text| == index
  {
    DemoMessage(m.role, m.text[..index])
  }

  /** The component's state: the shown messages and the step, plus the running effect's
      tick counter and whether its interval or its 600 ms timer is pending.  `script` is
      the constant `demoSteps`; `elapsedMs` is the time since mount, as the timers see it. */
  class AiChatDemo {
    const script: seq<DemoMessage>
    var messages: seq<DemoMessage>
    var step: nat
    var index: nat
    var ticking: bool
    var advancePending: bool
    ghost var elapsedMs: nat

    /** Steps before `step` are shown in full; the current one, once typing has begun, shows
        the first `index` characters; at most one of the interval and the timer is pending,
        and neither once the script is done; the time elapsed is that of the advanced steps
        plus one period per character typed since. */
    ghost predicate Valid()
      reads this
    {
      Typeable(script) && 0 < |script| &&
      step <= |script| &&
      elapsedMs == ElapsedAt(script, step, index) &&
      (forall i :: 0 <= i < step ==> i < |messages| && messages[i] == script[i]) &&
      (if step == |script| then
        |messages| == |script| && !ticking && !advancePending && index == 0
      else
        index <= |script[step].text| &&
        (|messages| == step || |messages| == step + 1) &&
        (|messages| == step <==> index == 0) &&
        (|messages| == step + 1 ==> messages[step] == Partial(script[step], index)) &&
        (ticking <==> !advancePending) &&
        (ticking ==> index < |script[step].text|) &&
        (advancePending ==> index == |script[step].text|))
    }

    /** A measure every event lowers and no reachable state takes below zero, so the events
        run out after finitely many. */
    function Pending(): int
      reads this
    {
      (|script| - step) * MaxTextLength - index
    }

    /** Mounting runs the effect for step 0, which starts the interval. */
    constructor()
      ensures Valid() && script == DemoSteps
      ensures messages == [] && step == 0 && index == 0 && ticking && elapsedMs == 0
    {
      script := DemoSteps;
      messages := [];
      step := 0;
      index := 0;
      ticking := true;
      advancePending := false;
      elapsedMs := 0;
      DemoStepsTypeable();
    }

    /** One interval tick: one more character of the current step, pushed as a new message
        the first time and replacing it afterwards; at the end of the text the interval stops
        and the 600 ms timer starts. */
    method Tick()
      requires Valid() && ticking
      modifies this
      ensures Valid()
      ensures step == old(step) && index == old(index) + 1
      ensures messages == old(messages)[..step] + [Partial(script[step], index)]
      ensures ticking <==> index < |script[step].text|
      ensures elapsedMs == old(elapsedMs) + TickPeriodMs(script[step].role)
      ensures Pending() < old(Pending())
    {
      index := index + 1;
      var current := script[step];
      elapsedMs := elapsedMs + TickPeriodMs(current.role);
      var shown := DemoMessage(current.role, current.text[..index]);
      if |messages| <= step {
        messages := messages + [shown];
      } else {
        messages := messages[step := shown];
      }
      if index >= |current.text| {
        ticking := false;
        advancePending := true;
      }
      assert messages == old(messages)[..step] + [Partial(script[step], index)];
    }

    /** The 600 ms timer: the step advances by one, and the effect for the new step starts a
        fresh interval unless the script is done. */
    method AdvanceTimerFired()
      requires Valid() && advancePending
      modifies this
      ensures Valid()
      ensures step == old(step) + 1 && messages == old(messages) && index == 0
      ensures ticking <==> step < |script|
      ensures elapsedMs == old(elapsedMs) + AdvanceDelayMs
      ensures Pending() < old(Pending())
    {
      assert messages[step] == script[step] by {
        assert script[step].text[..index] == script[step].text;
      }
      step := step + 1;
      index := 0;
      advancePending := false;
      elapsedMs := elapsedMs + AdvanceDelayMs;
      ticking := step < |script|;
    }
  }

  /** The shown text is always a prefix of the script: the shown messages are the script's
      messages in order, each with a prefix of its text. */
  lemma ShownIsPrefixOfScript(d: AiChatDemo)
    requires d.Valid()
    ensures |d.messages| <= |d.script|
    ensures forall i :: 0 <= i < |d.messages| ==> d.messages[i].role == d.script[i].role && d.messages[i].text <= d.script[i].text
  {
    forall i | 0 <= i < |d.messages|
      ensures d.messages[i].role == d.script[i].role && d.messages[i].text <= d.script[i].text
    {
      if i >= d.step {
        assert d.messages[i] == Partial(d.script[i], d.index);
      }
    }
  }

  /** Once the last step has advanced, the messages are the script, role for role and in
      full. */
  lemma FinishedShowsScript(d: AiChatDemo)
    requires d.Valid() && d.step == |d.script|
    ensures d.messages == d.script
    ensures d.elapsedMs == DoneMs(d.script, |d.script|)
  {
  }

  /** No state of the demo lies later than the end of the script: the time elapsed never
      exceeds the time all steps take, and reaches it exactly when the last step has
      advanced, since every step ends with the pause. */
  lemma ElapsedWithinTotal(d: AiChatDemo)
    requires d.Valid()
    ensures d.elapsedMs <= DoneMs(d.script, |d.script|)
    ensures d.elapsedMs == DoneMs(d.script, |d.script|) <==> d.step == |d.script|
  {
    if d.step < |d.script| {
      var m := d.script[d.step];
      assert d.index * TickPeriodMs(m.role) <= |m.text| * TickPeriodMs(m.role);
      assert DoneMs(d.script, d.step + 1) == DoneMs(d.script, d.step) + StepMs(m);
      DoneMsMonotone(d.script, d.step + 1, |d.script|);
    }
  }

  /** While the demo is not finished some event is pending, and the measure stays
      non-negative, so the events stop only when the script is done. */
  lemma EventsRunToTheEnd(d: AiChatDemo)
    requires d.Valid()
    ensures d.step < |d.script| ==> d.ticking || d.advancePending
    ensures d.Pending() >= 0
  {
    if d.step < |d.script| {
      assert |d.script[d.step].text| < MaxTextLength;
    }
  }
}
