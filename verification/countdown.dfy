/**
 * The two countdowns of the app, one timer tick at a time: the entrance
 * QR code, which regenerates itself every thirty seconds, and the SMS
 * countdown of the admin login pages, which runs from sixty and stops at
 * one. `Date.now()` and `Math.random()` are the inputs of each tick.
 */
module Countdown {
  import opened Wrappers
  import opened Text

  // ---------------------------------------------------------------------
  // The entrance QR code.

  const QrPeriod: int := 30

  /** The page's data: the logged-in user's id (`None` when nobody is), the code, the seconds left and whether the timer runs. */
  datatype Qr = Qr(userId: Option<string>, content: string, countdown: int, timerOn: bool)

  /** The code's text: `USER:<id>|TIME:<timestamp>|RAND:<random>`. */
  function Content(userId: string, now: nat, rand: string): (r: string)
  {
    "USER:" + userId + "|TIME:" + NatToString(now) + "|RAND:" + rand
  }

  /** The three fields of a code come back out of it when neither the id nor the random part contains a bar. */
  lemma ContentFields(userId: string, now: nat, rand: string)
    requires '|' !in userId && '|' !in rand
    ensures Split(Content(userId, now, rand), '|') == ["USER:" + userId, "TIME:" + NatToString(now), "RAND:" + rand]
  {
    var t := NatToString(now);
    assert '|' !in "TIME:" + t by {
      assert forall i :: 0 <= i < |t| ==> IsDigit(t[i]);
      assert forall i :: 0 <= i < |"TIME:" + t| ==> ("TIME:" + t)[i] != '|';
    }
    assert '|' !in "USER:" + userId by {
      assert forall i :: 0 <= i < |"USER:" + userId| ==> ("USER:" + userId)[i] != '|';
    }
    assert '|' !in "RAND:" + rand by {
      assert forall i :: 0 <= i < |"RAND:" + rand| ==> ("RAND:" + rand)[i] != '|';
    }
    var parts := ["USER:" + userId, "TIME:" + t, "RAND:" + rand];
    assert Join(parts, "|") == Content(userId, now, rand);
    SplitJoin(parts, '|');
  }

  /** Codes generated at different times differ, whatever the random parts. */
  lemma DifferentTimesDifferentCodes(userId: string, now1: nat, rand1: string, now2: nat, rand2: string)
    requires '|' !in userId && '|' !in rand1 && '|' !in rand2
    requires now1 != now2
    ensures Content(userId, now1, rand1) != Content(userId, now2, rand2)
  {
    ContentFields(userId, now1, rand1);
    ContentFields(userId, now2, rand2);
    if Content(userId, now1, rand1) == Content(userId, now2, rand2) {
      assert ("TIME:" + NatToString(now1))[5..] == NatToString(now1);
      assert ("TIME:" + NatToString(now2))[5..] == NatToString(now2);
      NatToStringInjective(now1, now2);
    }
  }

  /** `generateQRCode`: nothing without a user, else a fresh code. */
  function Generate(q: Qr, now: nat, rand: string): (r: Qr)
    ensures r.countdown == q.countdown && r.timerOn == q.timerOn && r.userId == q.userId
    ensures q.userId.None? ==> r == q
    ensures q.userId.Some? ==> r.content == Content(q.userId.value, now, rand)
  {
    match q.userId
    case None => q
    case Some(id) => q.(content := Content(id, now, rand))
  }

  /** `attached`: the user, a first code and the timer started at thirty seconds. */
  function Attached(userId: Option<string>, now: nat, rand: string): (r: Qr)
  {
    Generate(Qr(userId, "", QrPeriod, false), now, rand).(timerOn := true)
  }

  /** One tick of the interval: down by one, or at one (or below) a new code and thirty again. */
  function Tick(q: Qr, now: nat, rand: string): (r: Qr)
  {
    if !q.timerOn then q
    else if q.countdown <= 1 then Generate(q, now, rand).(countdown := QrPeriod)
    else q.(countdown := q.countdown - 1)
  }

  /** Ticks with the given clock readings and random parts, in order. */
  function Ticks(q: Qr, inputs: seq<(nat, string)>): Qr
    decreases |inputs|
  {
    if inputs == [] then q
    else
      var last := inputs[|inputs| - 1];
      Tick(Ticks(q, inputs[..|inputs| - 1]), last.0, last.1)
  }

  /**
   * Within one period the code stays and the seconds count down; the tick
   * that reaches the end of the period brings a code made from that tick's
   * clock and random part, and thirty seconds again.
   */
  lemma {:induction false} QrCycle(q: Qr, inputs: seq<(nat, string)>)
    requires q.timerOn && 1 <= q.countdown
    requires |inputs| <= q.countdown
    ensures |inputs| < q.countdown ==> Ticks(q, inputs) == q.(countdown := q.countdown - |inputs|)
    ensures |inputs| == q.countdown ==>
      Ticks(q, inputs) == Generate(q, inputs[|inputs| - 1].0, inputs[|inputs| - 1].1).(countdown := QrPeriod)
    decreases |inputs|
  {
    if inputs != [] {
      QrCycle(q, inputs[..|inputs| - 1]);
    }
  }

  /** `refreshQRCode`: a fresh code, thirty seconds and the timer restarted. */
  function Refresh(q: Qr, now: nat, rand: string): (r: Qr)
  {
    Generate(q, now, rand).(countdown := QrPeriod, timerOn := true)
  }

  /** A refresh is the end of a period brought forward: the same code and count as the regenerating tick. */
  lemma RefreshIsEarlyRollover(q: Qr, now: nat, rand: string)
    requires q.timerOn
    ensures Refresh(q, now, rand) == Tick(q.(countdown := 1), now, rand)
    ensures Refresh(q, now, rand).countdown == QrPeriod
  {
  }

  /** `clearTimer` when the page detaches: the code and count freeze. */
  function Detach(q: Qr): (r: Qr)
  {
    q.(timerOn := false)
  }

  lemma DetachedFreezes(q: Qr, inputs: seq<(nat, string)>)
    ensures Ticks(Detach(q), inputs) == Detach(q)
  {
    DetachedStays(Detach(q), inputs);
  }

  lemma {:induction false} DetachedStays(q: Qr, inputs: seq<(nat, string)>)
    requires !q.timerOn
    ensures Ticks(q, inputs) == q
    decreases |inputs|
  {
    if inputs != [] {
      DetachedStays(q, inputs[..|inputs| - 1]);
    }
  }

  // ---------------------------------------------------------------------
  // The SMS countdown of the admin login.

  const SmsStart: int := 60

  datatype Sms = Sms(countdown: int, timerOn: bool)

  /** The page's data before any code is sent. */
  const SmsIdle := Sms(0, false)

  /** `startCountdown`: any running timer cleared, sixty seconds, a new timer. */
  function Start(s: Sms): (r: Sms)
  {
    Sms(SmsStart, true)
  }

  /** One tick: at one (or below) the timer is cleared and the count stays; otherwise down by one. */
  function SmsTick(s: Sms): (r: Sms)
  {
    if !s.timerOn then s
    else if s.countdown <= 1 then s.(timerOn := false)
    else s.(countdown := s.countdown - 1)
  }

  function SmsTicks(s: Sms, n: nat): Sms
  {
    if n == 0 then s else SmsTick(SmsTicks(s, n - 1))
  }

  /**
   * After a start the count shows sixty minus the ticks for fifty-nine
   * ticks; the sixtieth clears the timer, and from then on the count stays
   * at one: it never shows zero again.
   */
  lemma {:induction false} SmsRun(s: Sms, n: nat)
    ensures n < SmsStart ==> SmsTicks(Start(s), n) == Sms(SmsStart - n, true)
    ensures n >= SmsStart ==> SmsTicks(Start(s), n) == Sms(1, false)
    decreases n
  {
    if n > 0 {
      SmsRun(s, n - 1);
    }
  }

  /** Starting again while a countdown runs begins from sixty; there is only ever one timer. */
  lemma RestartResets(s: Sms, n: nat)
    ensures Start(SmsTicks(Start(s), n)) == Start(s)
  {
  }
}
