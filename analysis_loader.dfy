/**
  The waiting screen shown while an analysis runs: a clock counting the
  seconds since it appeared, shown as MM:SS, and a status line that moves
  through seven messages, one step per tick of its own timer.
 */
module AnalysisLoader {
  import opened Wrappers
  import opened Strings

  const Messages: seq<string> := [
    "Initializing analysis...",
    "Reading your document(s)...",
    "Applying medical knowledge base...",
    "Simplifying complex terminology...",
    "Cross-referencing data points...",
    "Generating your report...",
    "Finalizing insights..."
  ]

  // ---- The clock -----------------------------------------------------------

  /** `n.toString().padStart(2, '0')` */
  function Padded(n: nat): string {
    PadStart(DecimalString(n), 2, '0')
  }

  /** A padded field is a numeral of at least two digits that reads back as
      `n`; it has exactly two digits below 100 and is the plain numeral,
      never cut, from 100 on. */
  lemma {:induction false} PaddedNumeral(n: nat)
    ensures AllDigits(Padded(n)) && ParseDecimal(Padded(n)) == n
    ensures |Padded(n)| >= 2
    ensures |Padded(n)| == 2 <==> n < 100
    ensures n >= 100 ==> Padded(n) == DecimalString(n)
  {
    var d := DecimalString(n);
    DecimalStringLength(n);
    ParseDecimalString(n);
    if |d| < 2 {
      ParseLeadingZeros(2 - |d|, d);
    }
  }

  /** `formatTime(seconds)`: whole minutes and the remaining seconds, each
      padded to two digits, joined by a colon. */
  function FormatTime(seconds: nat): string {
    Padded(seconds / 60) + ":" + Padded(seconds % 60)
  }

  /** The seconds field is the last two characters, after the colon, and
      reads as a value below 60; the minutes field before the colon has at
      least two digits, reads as the whole minutes, and has three or more
      from 100 minutes on; together they give back the elapsed seconds. */
  lemma {:induction false} FormatTimeFields(seconds: nat)
    ensures var t := FormatTime(seconds);
      && |t| >= 5 && t[|t| - 3] == ':'
      && AllDigits(t[|t| - 2..]) && ParseDecimal(t[|t| - 2..]) == seconds % 60 < 60
      && AllDigits(t[..|t| - 3]) && |t[..|t| - 3]| >= 2 && ParseDecimal(t[..|t| - 3]) == seconds / 60
      && (seconds >= 6000 ==> |t[..|t| - 3]| >= 3)
      && 60 * ParseDecimal(t[..|t| - 3]) + ParseDecimal(t[|t| - 2..]) == seconds
  {
    var m := Padded(seconds / 60);
    var s := Padded(seconds % 60);
    PaddedNumeral(seconds / 60);
    PaddedNumeral(seconds % 60);
    var t := FormatTime(seconds);
    assert t[|t| - 2..] == s;
    assert t[..|t| - 3] == m;
  }

  /** Reading an "MM:SS" display back: the digits before the first colon are
      minutes, the digits after it seconds. */
  function ParseTime(t: string): Option<nat> {
    var i := IndexOf(t, ":");
    if i < 0 then None
    else
      var minutes := t[..i];
      var secs := t[i + 1..];
      if |minutes| > 0 && |secs| > 0 && AllDigits(minutes) && AllDigits(secs)
      then Some(60 * ParseDecimal(minutes) + ParseDecimal(secs))
      else None
  }

  /** Every display reads back as the number of seconds it shows. */
  lemma {:induction false} FormatTimeRoundTrip(seconds: nat)
    ensures ParseTime(FormatTime(seconds)) == Some(seconds)
  {
    var m := Padded(seconds / 60);
    var s := Padded(seconds % 60);
    PaddedNumeral(seconds / 60);
    PaddedNumeral(seconds % 60);
    ParseFields(m, s);
    assert 60 * ParseDecimal(m) + ParseDecimal(s) == seconds by {
      assert seconds == 60 * (seconds / 60) + seconds % 60;
    }
  }

  /** Two non-empty digit strings joined by a colon read back as minutes and seconds. */
  lemma ParseFields(minutes: string, secs: string)
    requires |minutes| > 0 && |secs| > 0 && AllDigits(minutes) && AllDigits(secs)
    ensures ParseTime(minutes + ":" + secs) == Some(60 * ParseDecimal(minutes) + ParseDecimal(secs))
  {
    var t := minutes + ":" + secs;
    ColonAfterDigits(minutes, secs);
    assert t[..|minutes|] == minutes;
    assert t[|minutes| + 1..] == secs;
    ParseTimeAt(t, |minutes|);
  }

  /** A display whose first colon is at `i` reads as the fields around it. */
  lemma ParseTimeAt(t: string, i: nat)
    requires i < |t| && IndexOf(t, ":") == i
    requires i > 0 && i + 1 < |t| && AllDigits(t[..i]) && AllDigits(t[i + 1..])
    ensures ParseTime(t) == Some(60 * ParseDecimal(t[..i]) + ParseDecimal(t[i + 1..]))
  {
  }

  /** The first colon after a run of digits is the one that ends it. */
  lemma ColonAfterDigits(minutes: string, secs: string)
    requires AllDigits(minutes)
    ensures IndexOf(minutes + ":" + secs, ":") == |minutes|
  {
    forall j | 0 <= j < |minutes|
      ensures minutes[j] != ':'
    {
      assert IsDigit(minutes[j]);
    }
    IndexOfFirstChar(minutes, ':', secs);
  }

  /** Different elapsed times never show the same display. */
  lemma FormatTimeInjective(a: nat, b: nat)
    ensures FormatTime(a) == FormatTime(b) ==> a == b
  {
    FormatTimeRoundTrip(a);
    FormatTimeRoundTrip(b);
  }

  // ---- The message cycle ---------------------------------------------------

  /** `(prev + 1) % messages.length` */
  function NextMessageIndex(i: nat): (r: nat)
    ensures r < |Messages|
  {
    (i + 1) % |Messages|
  }

  /** The message index after `n` ticks of the message timer, from 0. */
  function MessageIndexAfter(n: nat): nat {
    if n == 0 then 0 else NextMessageIndex(MessageIndexAfter(n - 1))
  }

  /** After `n` ticks the index is `n` modulo the number of messages: the
      messages come round in order, forever. */
  lemma {:induction false} MessageIndexCycles(n: nat)
    ensures MessageIndexAfter(n) == n % |Messages|
  {
    if n > 0 {
      MessageIndexCycles(n - 1);
      var k := |Messages|;
      assert ((n - 1) % k + 1) % k == n % k by {
        var q := (n - 1) / k;
        assert n - 1 == q * k + (n - 1) % k;
        if (n - 1) % k == k - 1 {
          assert n == (q + 1) * k;
        } else {
          assert n == q * k + ((n - 1) % k + 1);
        }
      }
    }
  }

  /** The component's state: the two counters its timers advance. */
  class LoaderState {
    var elapsedTime: nat
    var currentMessageIndex: nat
    /** Ticks of the message timer so far. */
    ghost var messageTicks: nat

    ghost predicate Valid()
      reads this
    {
      currentMessageIndex == MessageIndexAfter(messageTicks)
    }

    /** Both counters start at 0. */
    constructor()
      ensures Valid()
      ensures elapsedTime == 0 && currentMessageIndex == 0 && messageTicks == 0
    {
      elapsedTime := 0;
      currentMessageIndex := 0;
      messageTicks := 0;
    }

    /** The one-second timer: `setElapsedTime(prev => prev + 1)`. */
    method TimerTick()
      requires Valid()
      modifies this
      ensures Valid()
      ensures elapsedTime == old(elapsedTime) + 1
      ensures currentMessageIndex == old(currentMessageIndex) && messageTicks == old(messageTicks)
    {
      elapsedTime := elapsedTime + 1;
    }

    /** The three-second timer: the next message, wrapping after the last;
        the index stays the tick count modulo the number of messages. */
    method MessageTick()
      requires Valid()
      modifies this
      ensures Valid()
      ensures currentMessageIndex == (old(currentMessageIndex) + 1) % |Messages|
      ensures currentMessageIndex < |Messages|
      ensures messageTicks == old(messageTicks) + 1 && currentMessageIndex == messageTicks % |Messages|
      ensures elapsedTime == old(elapsedTime)
    {
      currentMessageIndex := NextMessageIndex(currentMessageIndex);
      messageTicks := messageTicks + 1;
      MessageIndexCycles(messageTicks);
    }

    /** `messages[currentMessageIndex]`: always one of the seven messages. */
    function CurrentMessage(): (m: string)
      requires Valid()
      reads this
      ensures m in Messages
    {
      MessageIndexCycles(messageTicks);
      Messages[currentMessageIndex]
    }

    /** `formatTime(elapsedTime)`: the clock reads back as the elapsed seconds. */
    function Display(): (t: string)
      reads this
      ensures ParseTime(t) == Some(elapsedTime)
    {
      FormatTimeRoundTrip(elapsedTime);
      FormatTime(elapsedTime)
    }
  }
}
