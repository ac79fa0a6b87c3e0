/** One signal's card (components/SignalCard.tsx): a per-second countdown
    that stops at zero, the confidence and urgency colours, the text the copy
    button produces and the chart link. */
module SignalCard {
  import opened Types
  import opened Text

  /** The updater the one-second interval hands to `setTimeLeft`. */
  function CountdownStep(prev: int): (next: int)
    ensures next >= 0
    ensures prev > 1 ==> next == prev - 1
    ensures prev <= 1 ==> next == 0
    ensures prev > 0 ==> next < prev
  {
    if prev <= 1 then 0 else prev - 1
  }

  /** The countdown after `n` steps from `t`. */
  function AfterSteps(t: int, n: nat): int
    decreases n
  {
    if n == 0 then t else AfterSteps(CountdownStep(t), n - 1)
  }

  /** Once stepped, the countdown is a saturating subtraction: it never goes
      below zero and counts down one per step until then. */
  lemma {:induction false} AfterStepsSaturates(t: int, n: nat)
    requires n >= 1
    ensures AfterSteps(t, n) == if t - n > 0 then t - n else 0
    decreases n
  {
    if n > 1 {
      AfterStepsSaturates(CountdownStep(t), n - 1);
    }
  }

  /** Zero is final. */
  lemma {:induction false} ZeroStaysZero(n: nat)
    ensures AfterSteps(0, n) == 0
    decreases n
  {
    if n > 0 {
      ZeroStaysZero(n - 1);
    }
  }

  /** The card's countdown state: `timeLeft`, and whether the interval is
      still scheduled. */
  class Countdown {
    var timeLeft: int
    var running: bool

    /** An interval runs only while there is time left. */
    ghost predicate Valid()
      reads this
    {
      running ==> timeLeft > 0
    }

    /** `useState(signal.seconds_left)` and the effect, which schedules the
        interval only when that value is positive. */
    constructor (signal: Signal)
      ensures Valid()
      ensures timeLeft == signal.secondsLeft
      ensures running <==> signal.secondsLeft > 0
    {
      timeLeft := signal.secondsLeft;
      running := signal.secondsLeft > 0;
    }

    /** One firing of the interval: count down, and clear the interval when
        the value reaches zero. Without a scheduled interval nothing happens. */
    method Tick()
      modifies this
      ensures Valid()
      ensures old(running) ==> timeLeft == CountdownStep(old(timeLeft))
      ensures old(running) ==> (running <==> old(timeLeft) > 1)
      ensures !old(running) ==> timeLeft == old(timeLeft) && !running
      ensures old(Valid()) && old(running) ==> 0 <= timeLeft < old(timeLeft)
    {
      if running {
        if timeLeft <= 1 {
          running := false;
          timeLeft := 0;
        } else {
          timeLeft := timeLeft - 1;
        }
      }
    }
  }

  /** `getConfidenceColor`. */
  function ConfidenceTone(confidence: int): (t: Tone)
    ensures t == Green <==> confidence >= 80
    ensures t == Yellow <==> 60 <= confidence < 80
    ensures t == Red <==> confidence < 60
  {
    if confidence >= 80 then Green
    else if confidence >= 60 then Yellow
    else Red
  }

  /** The colour of the countdown text and of the progress bar. */
  function UrgencyTone(timeLeft: int): (t: Tone)
    ensures t == Red <==> timeLeft <= 5
    ensures t == Yellow <==> 5 < timeLeft <= 10
    ensures t == Green <==> timeLeft > 10
  {
    if timeLeft <= 5 then Red
    else if timeLeft <= 10 then Yellow
    else Green
  }

  /** The "Expired" label, which is shown with red urgency. */
  function ExpiredShown(timeLeft: int): (shown: bool)
    ensures shown ==> UrgencyTone(timeLeft) == Red
  {
    timeLeft == 0
  }

  /** A countdown started at `t > 0` shows "Expired" after exactly `t` steps. */
  lemma ExpiresAfterItsSeconds(t: int, n: nat)
    requires t > 0
    ensures ExpiredShown(AfterSteps(t, n)) <==> n >= t
  {
    if n >= 1 {
      AfterStepsSaturates(t, n);
    }
  }

  /** One more step on top of `n` steps. */
  lemma {:induction false} AfterStepsNext(t: int, n: nat)
    ensures AfterSteps(t, n + 1) == CountdownStep(AfterSteps(t, n))
    decreases n
  {
    if n > 0 {
      AfterStepsNext(CountdownStep(t), n - 1);
    }
  }

  /** A card mounted for `signal` whose interval then fires `n` times. While
      time is left the card follows `AfterSteps`; a card mounted with no time
      left never schedules an interval and keeps its value. */
  method RunTicks(signal: Signal, n: nat) returns (c: Countdown)
    ensures signal.secondsLeft > 0 ==> c.timeLeft == AfterSteps(signal.secondsLeft, n)
    ensures signal.secondsLeft <= 0 ==> c.timeLeft == signal.secondsLeft
    ensures signal.secondsLeft > 0 ==> (ExpiredShown(c.timeLeft) <==> n >= signal.secondsLeft)
    ensures c.running <==> c.timeLeft > 0
  {
    var t := signal.secondsLeft;
    c := new Countdown(signal);
    var k := 0;
    while k < n
      invariant 0 <= k <= n
      invariant c.running <==> c.timeLeft > 0
      invariant t > 0 ==> c.timeLeft >= 0 && c.timeLeft == AfterSteps(t, k)
      invariant t <= 0 ==> c.timeLeft == t
    {
      c.Tick();
      if t > 0 {
        AfterStepsNext(t, k);
      }
      k := k + 1;
    }
    if t > 0 {
      ExpiresAfterItsSeconds(t, n);
    }
  }

  /** `copySignal`'s clipboard text, with the card's current `timeLeft`: four
      template strings concatenated. */
  function CopyText(signal: Signal, timeLeft: int): string
  {
    var first := signal.symbol + " " + ActionName(signal.action) + " @ " + signal.price.shown + "\n";
    var second := "Confidence: " + IntToString(signal.confidence) + "%\n";
    var third := "Logic: " + signal.logic + "\n";
    var fourth := "Time left: " + IntToString(timeLeft) + "s";
    first + second + third + fourth
  }

  /** The four lines of the copied text. */
  function CopyLines(signal: Signal, timeLeft: int): seq<string>
  {
    [signal.symbol + " " + ActionName(signal.action) + " @ " + signal.price.shown,
     "Confidence: " + IntToString(signal.confidence) + "%",
     "Logic: " + signal.logic,
     "Time left: " + IntToString(timeLeft) + "s"]
  }

  /** The copied text is its four lines joined by line breaks. */
  lemma CopyTextIsJoin(signal: Signal, timeLeft: int)
    ensures CopyText(signal, timeLeft) == Join(CopyLines(signal, timeLeft), '\n')
  {
    var lines := CopyLines(signal, timeLeft);
    CopyTextPieces(signal, timeLeft);
    JoinFour(lines[0], lines[1], lines[2], lines[3], '\n');
    assert lines == [lines[0], lines[1], lines[2], lines[3]];
  }

  /** Each template string of the copied text is one line and a line break. */
  lemma CopyTextPieces(signal: Signal, timeLeft: int)
    ensures var lines := CopyLines(signal, timeLeft);
            CopyText(signal, timeLeft)
            == (lines[0] + ['\n']) + (lines[1] + ['\n']) + (lines[2] + ['\n']) + lines[3]
  {
    var lines := CopyLines(signal, timeLeft);
    assert "Confidence: " + IntToString(signal.confidence) + "%\n" == lines[1] + ['\n'] by {
      assert "%\n" == "%" + ['\n'];
    }
  }

  /** A four-part join, spelt out. */
  lemma JoinFour(a: string, b: string, c: string, d: string, sep: char)
    ensures Join([a, b, c, d], sep) == (a + [sep]) + (b + [sep]) + (c + [sep]) + d
  {
    JoinCons(c, [d], sep);
    assert [b, c, d] == [b] + [c, d];
    JoinCons(b, [c, d], sep);
    assert [a, b, c, d] == [a] + [b, c, d];
    JoinCons(a, [b, c, d], sep);
  }

  /** No line of the copied text holds a line break of its own when symbol,
      price and logic hold none. */
  lemma CopyLinesSingle(signal: Signal, timeLeft: int)
    requires '\n' !in signal.symbol && '\n' !in signal.price.shown && '\n' !in signal.logic
    ensures forall k :: 0 <= k < 4 ==> '\n' !in CopyLines(signal, timeLeft)[k]
  {
    var c := IntToString(signal.confidence);
    var t := IntToString(timeLeft);
    assert forall k :: 0 <= k < |c| ==> c[k] != '\n';
    assert forall k :: 0 <= k < |t| ==> t[k] != '\n';
    assert ActionName(signal.action) == "CALL" || ActionName(signal.action) == "PUT";
  }

  /** When symbol, price and logic hold no line break, the copied text reads
      back as its four lines, and the confidence and the seconds left read
      back from them. */
  lemma CopyTextReadsBack(signal: Signal, timeLeft: int)
    requires '\n' !in signal.symbol && '\n' !in signal.price.shown && '\n' !in signal.logic
    ensures Split(CopyText(signal, timeLeft), '\n') == CopyLines(signal, timeLeft)
    ensures var line := CopyLines(signal, timeLeft)[1];
            ParseInt(line[|"Confidence: "|..|line| - 1]) == signal.confidence
    ensures var line := CopyLines(signal, timeLeft)[3];
            ParseInt(line[|"Time left: "|..|line| - 1]) == timeLeft
  {
    var lines := CopyLines(signal, timeLeft);
    CopyTextIsJoin(signal, timeLeft);
    CopyLinesSingle(signal, timeLeft);
    SplitJoin(lines, '\n');
    assert lines[1][|"Confidence: "|..|lines[1]| - 1] == IntToString(signal.confidence);
    assert lines[3][|"Time left: "|..|lines[3]| - 1] == IntToString(timeLeft);
    ParseIntToString(signal.confidence);
    ParseIntToString(timeLeft);
  }

  /** The "Chart" link's target. */
  const CHART_PREFIX: string := "https://www.tradingview.com/chart/?symbol=FX:"

  /** The chart link: the TradingView FX chart URL with the symbol appended
      as it is, so the symbol reads back from the link. */
  function ChartUrl(symbol: string): (url: string)
    ensures |url| == |CHART_PREFIX| + |symbol|
    ensures url[..|CHART_PREFIX|] == CHART_PREFIX
    ensures url[|CHART_PREFIX|..] == symbol
  {
    CHART_PREFIX + symbol
  }
}
