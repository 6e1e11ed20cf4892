/**
 * The reset-password page (app/reset-password/reset-password-content.tsx): the
 * password-strength score, its label and bar, the submit guard chain and the
 * countdown to the login page after a successful reset.
 */
module ResetPassword {
  import opened Wrappers

  const MinLength := 8
  const CountdownStart := 5
  const ResetFailedDefault := "Failed to reset password. Please try again."

  predicate IsUpper(c: char) { 'A' <= c <= 'Z' }
  predicate IsDigit(c: char) { '0' <= c <= '9' }
  /** Matched by `[^A-Za-z0-9]`. */
  predicate IsSymbol(c: char) { !IsUpper(c) && !IsDigit(c) && !('a' <= c <= 'z') }

  predicate HasUpper(p: string) { exists k :: 0 <= k < |p| && IsUpper(p[k]) }
  predicate HasDigit(p: string) { exists k :: 0 <= k < |p| && IsDigit(p[k]) }
  predicate HasSymbol(p: string) { exists k :: 0 <= k < |p| && IsSymbol(p[k]) }

  function Point(b: bool): nat { if b then 1 else 0 }

  /** `passwordStrength`: one point each for length, an upper-case letter, a digit and a symbol. */
  function Strength(p: string): nat {
    Point(|p| >= MinLength) + Point(HasUpper(p)) + Point(HasDigit(p)) + Point(HasSymbol(p))
  }

  /** The score is at most 4; it is 4 exactly when all four criteria hold and 0 exactly when none does. */
  lemma StrengthSpec(p: string)
    ensures Strength(p) <= 4
    ensures Strength(p) == 4 <==> |p| >= MinLength && HasUpper(p) && HasDigit(p) && HasSymbol(p)
    ensures Strength(p) == 0 <==> |p| < MinLength && !HasUpper(p) && !HasDigit(p) && !HasSymbol(p)
    ensures p == "" ==> Strength(p) == 0
  {
  }

  /** Typing more characters never lowers the score. */
  lemma StrengthMonotone(p: string, more: string)
    ensures Strength(p) <= Strength(p + more)
  {
    if HasUpper(p) {
      var k :| 0 <= k < |p| && IsUpper(p[k]);
      assert (p + more)[k] == p[k];
    }
    if HasDigit(p) {
      var k :| 0 <= k < |p| && IsDigit(p[k]);
      assert (p + more)[k] == p[k];
    }
    if HasSymbol(p) {
      var k :| 0 <= k < |p| && IsSymbol(p[k]);
      assert (p + more)[k] == p[k];
    }
  }

  const StrengthLabels := ["Too weak", "Weak", "Good", "Strong"]
  const StrengthColors := ["bg-red-500", "bg-orange-500", "bg-yellow-500", "bg-green-500"]

  /** `list[score - 1] || fallback`: an index outside the list reads `undefined`. */
  function PickOr(list: seq<string>, score: int, fallback: string): string {
    if 1 <= score <= |list| && list[score - 1] != "" then list[score - 1] else fallback
  }

  function StrengthLabel(score: int): string { PickOr(StrengthLabels, score, "Too weak") }
  function StrengthColor(score: int): string { PickOr(StrengthColors, score, "bg-gray-300") }

  /** `(score / 4) * 100`, exact for the whole scores the page produces. */
  function Progress(score: nat): nat { score * 25 }

  /** The label, colour and bar for each score the strength can take. */
  lemma StrengthDisplay(p: string)
    ensures Strength(p) <= 1 ==> StrengthLabel(Strength(p)) == "Too weak"
    ensures Strength(p) == 2 ==> StrengthLabel(Strength(p)) == "Weak"
    ensures Strength(p) == 3 ==> StrengthLabel(Strength(p)) == "Good"
    ensures Strength(p) == 4 ==> StrengthLabel(Strength(p)) == "Strong"
    ensures Strength(p) == 0 <==> StrengthColor(Strength(p)) == "bg-gray-300"
    ensures Progress(Strength(p)) <= 100
    ensures Progress(Strength(p)) == 100 <==> |p| >= MinLength && HasUpper(p) && HasDigit(p) && HasSymbol(p)
    ensures Progress(Strength(p)) * 4 == Strength(p) * 100
  {
    StrengthSpec(p);
  }

  /** Why a reset request was not made, in the order the page checks. */
  datatype Refusal = MissingToken | Mismatch | TooWeak

  /** The body of the reset request: the token from the link and the new password. */
  datatype ResetRequest = ResetRequest(token: string, newPassword: string)

  /** The submit guard chain; `None` when a request goes out. */
  function SubmitCheck(token: Option<string>, password: string, confirm: string): Option<Refusal> {
    if token.None? || token.value == "" then Some(MissingToken)
    else if password != confirm then Some(Mismatch)
    else if Strength(password) < 2 then Some(TooWeak)
    else None
  }

  /** A request goes out iff every check passes; otherwise the first failing check is reported. */
  lemma SubmitCheckSpec(token: Option<string>, password: string, confirm: string)
    ensures SubmitCheck(token, password, confirm).None? <==>
      token.Some? && token.value != "" && password == confirm && Strength(password) >= 2
    ensures SubmitCheck(token, password, confirm) == Some(MissingToken) <==> token.None? || token.value == ""
    ensures SubmitCheck(token, password, confirm) == Some(Mismatch) <==>
      token.Some? && token.value != "" && password != confirm
    ensures SubmitCheck(token, password, confirm) == Some(TooWeak) <==>
      token.Some? && token.value != "" && password == confirm && Strength(password) < 2
  {
  }

  /** The countdown to the login page: seconds left and whether the interval is still running. */
  datatype Countdown = Countdown(remaining: int, running: bool)

  /** One interval tick: the new countdown and whether this tick goes to /login. */
  function Tick(c: Countdown): (Countdown, bool) {
    if !c.running then (c, false)
    else if c.remaining <= 1 then (Countdown(0, false), true)
    else (Countdown(c.remaining - 1, true), false)
  }

  /** `n` ticks: the final countdown and the number of redirects they made. */
  function Ticks(c: Countdown, n: nat): (Countdown, nat)
    decreases n
  {
    if n == 0 then (c, 0)
    else
      var (next, redirect) := Tick(c);
      var (last, count) := Ticks(next, n - 1);
      (last, count + Point(redirect))
  }

  /** A tick never takes a running countdown below 0. */
  lemma TickNonNegative(c: Countdown)
    ensures c.running ==> Tick(c).0.remaining >= 0
    ensures Tick(c).1 ==> Tick(c).0 == Countdown(0, false)
  {
  }

  /**
   * Started at k >= 1, the countdown shows k - n after n < k ticks without redirecting,
   * and from the k-th tick on it is stopped at 0, having gone to /login exactly once.
   */
  lemma {:induction false} RedirectExactlyOnce(k: int, n: nat)
    requires k >= 1
    ensures n < k ==> Ticks(Countdown(k, true), n) == (Countdown(k - n, true), 0)
    ensures n >= k ==> Ticks(Countdown(k, true), n) == (Countdown(0, false), 1)
  {
    if n > 0 {
      if k == 1 {
        StoppedStaysStopped(Countdown(0, false), n - 1);
      } else {
        RedirectExactlyOnce(k - 1, n - 1);
      }
    }
  }

  lemma {:induction false} StoppedStaysStopped(c: Countdown, n: nat)
    requires !c.running
    ensures Ticks(c, n) == (c, 0)
  {
    if n > 0 {
      StoppedStaysStopped(c, n - 1);
    }
  }

  /** The page's state. */
  class ResetPage {
    var password: string
    var confirmPassword: string
    var isLoading: bool
    var success: bool
    var countdown: Countdown

    constructor ()
      ensures password == "" && confirmPassword == "" && !isLoading && !success
      ensures countdown == Countdown(CountdownStart, false)
    {
      password := "";
      confirmPassword := "";
      isLoading := false;
      success := false;
      countdown := Countdown(CountdownStart, false);
    }

    /**
     * The submit button is disabled while loading or while either field is empty; it never
     * hides a form the submit check would accept.
     */
    predicate SubmitDisabled()
      reads this
      ensures isLoading ==> SubmitDisabled()
      ensures forall t :: !isLoading && SubmitCheck(t, password, confirmPassword).None? ==> !SubmitDisabled()
    {
      isLoading || password == "" || confirmPassword == ""
    }

    method SetPassword(p: string)
      modifies this
      ensures password == p && confirmPassword == old(confirmPassword)
      ensures isLoading == old(isLoading) && success == old(success) && countdown == old(countdown)
    {
      password := p;
    }

    method SetConfirmPassword(p: string)
      modifies this
      ensures confirmPassword == p && password == old(password)
      ensures isLoading == old(isLoading) && success == old(success) && countdown == old(countdown)
    {
      confirmPassword := p;
    }

    /**
     * `handleSubmit`: the guard chain, then the request. A successful reset sets `success`,
     * which starts the countdown interval; a failure reports the backend's message.
     */
    method HandleSubmit(token: Option<string>, reply: Reply<()>)
      returns (refusal: Option<Refusal>, request: Option<ResetRequest>, failure: Option<string>)
      modifies this
      ensures refusal == SubmitCheck(token, old(password), old(confirmPassword))
      ensures refusal.Some? ==> request.None?
      ensures refusal.None? ==> token.Some? && request == Some(ResetRequest(token.value, old(password)))
      ensures password == old(password) && confirmPassword == old(confirmPassword)
      ensures refusal.Some? ==>
        isLoading == old(isLoading) && success == old(success) && countdown == old(countdown) && failure.None?
      ensures refusal.None? ==> !isLoading
      ensures refusal.None? && reply.Ok? ==>
        success && failure.None?
        && countdown == (if old(success) then old(countdown) else old(countdown).(running := true))
      ensures refusal.None? && reply.Failed? ==>
        success == old(success) && countdown == old(countdown)
        && failure == Some(TextOr(reply.error.responseMessage, ResetFailedDefault))
    {
      failure, request := None, None;
      refusal := SubmitCheck(token, password, confirmPassword);
      if refusal.Some? {
        return;
      }
      request := Some(ResetRequest(token.value, password));
      isLoading := true;
      if reply.Ok? {
        if !success {
          countdown := countdown.(running := true);
        }
        success := true;
      } else {
        failure := Some(TextOr(reply.error.responseMessage, ResetFailedDefault));
      }
      isLoading := false;
    }

    /** One tick of the interval; `redirect` is the push to /login. */
    method OnTick() returns (redirect: bool)
      modifies this
      ensures (countdown, redirect) == Tick(old(countdown))
      ensures password == old(password) && confirmPassword == old(confirmPassword)
      ensures isLoading == old(isLoading) && success == old(success)
    {
      if !countdown.running {
        return false;
      }
      if countdown.remaining <= 1 {
        countdown := Countdown(0, false);
        redirect := true;
      } else {
        countdown := countdown.(remaining := countdown.remaining - 1);
        redirect := false;
      }
    }
  }
}
