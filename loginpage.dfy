/** `handleLogin` of src/pages/LoginPilot.jsx: validation, normalisation and the bounded
    retry loop. Each login POST is an abstract outcome supplied by the caller, and the
    waits, toasts and the delayed redirect are logged as events. */
module LoginPage {
  import opened Wrappers
  import opened Session
  import opened NusId

  const MaxAttempts: nat := 3

  /** How one login POST ends: a response with a status and the `token` field of its body, or a throw. */
  datatype AttemptOutcome = Responded(status: int, token: string) | Threw

  datatype LoginEvent =
    | InvalidEmailToast
    | Post(email: string)
    | SuccessToast
    | FailureToast
    | Wait(ms: nat)
    | RedirectLater(path: string, ms: nat)

  /** What one run of the handler produces: its events, the final `isLoggingIn`, and the token
      stored under the session key, if any. */
  datatype LoginRun = LoginRun(events: seq<LoginEvent>, loggingIn: bool, token: Option<string>)

  predicate IsSuccess(outcome: AttemptOutcome) {
    outcome.Responded? && outcome.status == 200
  }

  /** The attempts from index `attempt` on, continuing the run `acc`. */
  function Attempts(email: string, outcomes: seq<AttemptOutcome>, attempt: nat, acc: LoginRun): LoginRun
    requires |outcomes| == MaxAttempts
    decreases MaxAttempts - attempt
  {
    if attempt >= MaxAttempts then acc
    else
      var posted := acc.events + [Post(email)];
      match outcomes[attempt]
      case Responded(status, token) =>
        if status == 200 then LoginRun(posted + [SuccessToast, RedirectLater("/dashboard", 500)], false, Some(token))
        else Attempts(email, outcomes, attempt + 1, LoginRun(posted, false, acc.token))
      case Threw =>
        if attempt == 1 then Attempts(email, outcomes, attempt + 1, LoginRun(posted + [FailureToast], false, acc.token))
        else Attempts(email, outcomes, attempt + 1, LoginRun(posted + [Wait(1500)], acc.loggingIn, acc.token))
  }

  /** The whole handler for the typed `email`: a rejected input shows the invalid-email toast and
      clears the busy flag; an accepted one is normalised and tried up to three times. */
  function LoginSpec(email: string, outcomes: seq<AttemptOutcome>): LoginRun
    requires |outcomes| == MaxAttempts
  {
    if !Accepts(email) then LoginRun([InvalidEmailToast], false, None)
    else Attempts(Normalise(email), outcomes, 0, LoginRun([], true, None))
  }

  function PostCount(events: seq<LoginEvent>): nat {
    if events == [] then 0 else (if events[0].Post? then 1 else 0) + PostCount(events[1..])
  }

  function FailureToastCount(events: seq<LoginEvent>): nat {
    if events == [] then 0 else (if events[0] == FailureToast then 1 else 0) + FailureToastCount(events[1..])
  }

  function WaitCount(events: seq<LoginEvent>): nat {
    if events == [] then 0 else (if events[0].Wait? then 1 else 0) + WaitCount(events[1..])
  }

  lemma {:induction false} CountsAppend(a: seq<LoginEvent>, b: seq<LoginEvent>)
    ensures PostCount(a + b) == PostCount(a) + PostCount(b)
    ensures FailureToastCount(a + b) == FailureToastCount(a) + FailureToastCount(b)
    ensures WaitCount(a + b) == WaitCount(a) + WaitCount(b)
  {
    if a == [] {
      assert a + b == b;
    } else {
      assert (a + b)[1..] == a[1..] + b;
      CountsAppend(a[1..], b);
    }
  }

  /** The login page's state. */
  class LoginForm {
    var email: string
    var isLoggingIn: bool
    var events: seq<LoginEvent>

    constructor ()
      ensures email == "" && !isLoggingIn && events == []
    {
      email := "";
      isLoggingIn := false;
      events := [];
    }

    /** The input's change handler. */
    method Type(text: string)
      modifies this`email
      ensures email == text
    {
      email := text;
    }

    /** `handleLogin`, with `outcomes[i]` the outcome of attempt i should it be made. */
    method HandleLogin(browser: Browser, outcomes: seq<AttemptOutcome>)
      requires |outcomes| == MaxAttempts
      modifies this, browser
      ensures var run := LoginSpec(old(email), outcomes);
        && events == old(events) + run.events
        && isLoggingIn == run.loggingIn
        && email == (if Accepts(old(email)) then Normalise(old(email)) else old(email))
        && browser.storage == (if run.token.Some? then old(browser.storage)[TokenKey := run.token.value]
                               else old(browser.storage))
        && browser.location == old(browser.location)
    {
      isLoggingIn := true;
      if !Accepts(email) {
        events := events + [InvalidEmailToast];
        isLoggingIn := false;
        return;
      }
      var formatted := Normalise(email);
      email := formatted;
      TryAttempts(browser, outcomes);
    }

    /** The `for` loop over the attempts, for the already normalised `email`. */
    method TryAttempts(browser: Browser, outcomes: seq<AttemptOutcome>)
      requires |outcomes| == MaxAttempts && isLoggingIn
      modifies this`isLoggingIn, this`events, browser`storage
      ensures var run := Attempts(email, outcomes, 0, LoginRun([], true, None));
        && events == old(events) + run.events
        && isLoggingIn == run.loggingIn
        && browser.storage == (if run.token.Some? then old(browser.storage)[TokenKey := run.token.value]
                               else old(browser.storage))
    {
      ghost var goal := Attempts(email, outcomes, 0, LoginRun([], true, None));
      ghost var added: seq<LoginEvent> := [];
      var attempt := 0;
      while attempt < MaxAttempts
        invariant 0 <= attempt <= MaxAttempts
        invariant browser.storage == old(browser.storage)
        invariant events == old(events) + added
        invariant Attempts(email, outcomes, attempt, LoginRun(added, isLoggingIn, None)) == goal
      {
        AttemptsUnfold(email, outcomes, attempt, LoginRun(added, isLoggingIn, None));
        events := events + [Post(email)];
        added := added + [Post(email)];
        match outcomes[attempt] {
          case Responded(status, token) =>
            isLoggingIn := false;
            if status == 200 {
              browser.storage := browser.storage[TokenKey := token];
              events := events + [SuccessToast, RedirectLater("/dashboard", 500)];
              return;
            }
          case Threw =>
            if attempt == 1 {
              isLoggingIn := false;
              events := events + [FailureToast];
              added := added + [FailureToast];
            } else {
              events := events + [Wait(1500)];
              added := added + [Wait(1500)];
            }
        }
        attempt := attempt + 1;
      }
    }
  }

  /** A rejected input sends nothing, shows the invalid-email toast and clears the busy flag. */
  lemma InvalidEmailSendsNothing(email: string, outcomes: seq<AttemptOutcome>)
    requires |outcomes| == MaxAttempts && !Accepts(email)
    ensures LoginSpec(email, outcomes) == LoginRun([InvalidEmailToast], false, None)
    ensures PostCount(LoginSpec(email, outcomes).events) == 0
  {
    assert [InvalidEmailToast][1..] == [];
  }

  /** Unfolding of one attempt, for the loop's invariant. */
  lemma AttemptsUnfold(email: string, outcomes: seq<AttemptOutcome>, attempt: nat, acc: LoginRun)
    requires |outcomes| == MaxAttempts && attempt < MaxAttempts
    ensures var posted := acc.events + [Post(email)];
      Attempts(email, outcomes, attempt, acc) ==
        match outcomes[attempt]
        case Responded(status, token) =>
          if status == 200 then LoginRun(posted + [SuccessToast, RedirectLater("/dashboard", 500)], false, Some(token))
          else Attempts(email, outcomes, attempt + 1, LoginRun(posted, false, acc.token))
        case Threw =>
          if attempt == 1 then Attempts(email, outcomes, attempt + 1, LoginRun(posted + [FailureToast], false, acc.token))
          else Attempts(email, outcomes, attempt + 1, LoginRun(posted + [Wait(1500)], acc.loggingIn, acc.token))
  {
  }

  /** The index of the first attempt from `attempt` on whose outcome is a 200, or 3 if none is. */
  function FirstSuccess(outcomes: seq<AttemptOutcome>, attempt: nat): (i: nat)
    requires |outcomes| == MaxAttempts && attempt <= MaxAttempts
    ensures attempt <= i <= MaxAttempts
    ensures i < MaxAttempts ==> IsSuccess(outcomes[i])
    ensures forall j :: attempt <= j < i ==> !IsSuccess(outcomes[j])
    decreases MaxAttempts - attempt
  {
    if attempt == MaxAttempts || IsSuccess(outcomes[attempt]) then attempt else FirstSuccess(outcomes, attempt + 1)
  }

  /** From attempt `attempt` on, the run makes one POST per attempt up to and including the first
      200, stores that response's token, and stores nothing when no 200 comes. */
  lemma {:induction false} AttemptsPosts(email: string, outcomes: seq<AttemptOutcome>, attempt: nat, acc: LoginRun)
    requires |outcomes| == MaxAttempts && attempt <= MaxAttempts && acc.token == None
    ensures var r := Attempts(email, outcomes, attempt, acc);
      var f := FirstSuccess(outcomes, attempt);
      && r.token == (if f < MaxAttempts then Some(outcomes[f].token) else None)
      && PostCount(r.events) == PostCount(acc.events) + (if f < MaxAttempts then f + 1 else MaxAttempts) - attempt
    decreases MaxAttempts - attempt
  {
    if attempt < MaxAttempts {
      var posted := acc.events + [Post(email)];
      CountsAppend(acc.events, [Post(email)]);
      assert PostCount([Post(email)]) == 1;
      match outcomes[attempt] {
        case Responded(status, token) =>
          if status == 200 {
            CountsAppend(posted, [SuccessToast, RedirectLater("/dashboard", 500)]);
            assert PostCount([SuccessToast, RedirectLater("/dashboard", 500)]) == 0;
          } else {
            AttemptsPosts(email, outcomes, attempt + 1, LoginRun(posted, false, acc.token));
          }
        case Threw =>
          var extra := if attempt == 1 then FailureToast else Wait(1500);
          CountsAppend(posted, [extra]);
          assert PostCount([extra]) == 0;
          AttemptsPosts(email, outcomes, attempt + 1,
            LoginRun(posted + [extra], if attempt == 1 then false else acc.loggingIn, acc.token));
      }
    }
  }

  /** At most three POSTs; the run stops at the first 200, whose token is stored; without a 200
      all three attempts are made and nothing is stored. */
  lemma LoginAttemptsBound(email: string, outcomes: seq<AttemptOutcome>, i: nat)
    requires |outcomes| == MaxAttempts && Accepts(email)
    ensures PostCount(LoginSpec(email, outcomes).events) <= MaxAttempts
    ensures i < MaxAttempts && IsSuccess(outcomes[i]) && (forall j :: 0 <= j < i ==> !IsSuccess(outcomes[j])) ==>
      LoginSpec(email, outcomes).token == Some(outcomes[i].token)
      && PostCount(LoginSpec(email, outcomes).events) == i + 1
    ensures (forall j :: 0 <= j < MaxAttempts ==> !IsSuccess(outcomes[j])) ==>
      LoginSpec(email, outcomes).token == None && PostCount(LoginSpec(email, outcomes).events) == MaxAttempts
  {
    AttemptsPosts(Normalise(email), outcomes, 0, LoginRun([], true, None));
    var f := FirstSuccess(outcomes, 0);
    if i < MaxAttempts && IsSuccess(outcomes[i]) && (forall j :: 0 <= j < i ==> !IsSuccess(outcomes[j])) {
      assert f == i;
    }
  }

  /** Whether the attempts from `attempt` on reach attempt 1 and see it throw. */
  predicate ThrowsAtSecond(outcomes: seq<AttemptOutcome>, attempt: nat)
    requires |outcomes| == MaxAttempts
  {
    attempt <= 1 && (attempt == 1 || !IsSuccess(outcomes[0])) && outcomes[1] == Threw
  }

  lemma {:induction false} AttemptsFailureToasts(email: string, outcomes: seq<AttemptOutcome>, attempt: nat, acc: LoginRun)
    requires |outcomes| == MaxAttempts && attempt <= MaxAttempts
    ensures FailureToastCount(Attempts(email, outcomes, attempt, acc).events)
         == FailureToastCount(acc.events) + (if ThrowsAtSecond(outcomes, attempt) then 1 else 0)
    decreases MaxAttempts - attempt
  {
    if attempt < MaxAttempts {
      var posted := acc.events + [Post(email)];
      CountsAppend(acc.events, [Post(email)]);
      assert FailureToastCount([Post(email)]) == 0;
      match outcomes[attempt] {
        case Responded(status, token) =>
          if status == 200 {
            CountsAppend(posted, [SuccessToast, RedirectLater("/dashboard", 500)]);
            assert FailureToastCount([SuccessToast, RedirectLater("/dashboard", 500)]) == 0;
          } else {
            AttemptsFailureToasts(email, outcomes, attempt + 1, LoginRun(posted, false, acc.token));
          }
        case Threw =>
          var extra := if attempt == 1 then FailureToast else Wait(1500);
          CountsAppend(posted, [extra]);
          assert FailureToastCount([extra]) == (if attempt == 1 then 1 else 0);
          AttemptsFailureToasts(email, outcomes, attempt + 1,
            LoginRun(posted + [extra], if attempt == 1 then false else acc.loggingIn, acc.token));
      }
    }
  }

  /** The number of attempts from `attempt` on that are made and throw with index 0 or 2: an
      attempt is made until one succeeds. */
  function ThrownWaits(outcomes: seq<AttemptOutcome>, attempt: nat): nat
    requires |outcomes| == MaxAttempts
    decreases MaxAttempts - attempt
  {
    if attempt >= MaxAttempts || IsSuccess(outcomes[attempt]) then 0
    else (if outcomes[attempt] == Threw && attempt != 1 then 1 else 0) + ThrownWaits(outcomes, attempt + 1)
  }

  lemma {:induction false} AttemptsWaits(email: string, outcomes: seq<AttemptOutcome>, attempt: nat, acc: LoginRun)
    requires |outcomes| == MaxAttempts && attempt <= MaxAttempts
    ensures WaitCount(Attempts(email, outcomes, attempt, acc).events) == WaitCount(acc.events) + ThrownWaits(outcomes, attempt)
    decreases MaxAttempts - attempt
  {
    if attempt < MaxAttempts {
      var posted := acc.events + [Post(email)];
      CountsAppend(acc.events, [Post(email)]);
      assert WaitCount([Post(email)]) == 0;
      match outcomes[attempt] {
        case Responded(status, token) =>
          if status == 200 {
            CountsAppend(posted, [SuccessToast, RedirectLater("/dashboard", 500)]);
            assert WaitCount([SuccessToast, RedirectLater("/dashboard", 500)]) == 0;
          } else {
            AttemptsWaits(email, outcomes, attempt + 1, LoginRun(posted, false, acc.token));
          }
        case Threw =>
          var extra := if attempt == 1 then FailureToast else Wait(1500);
          CountsAppend(posted, [extra]);
          assert WaitCount([extra]) == (if attempt == 1 then 0 else 1);
          AttemptsWaits(email, outcomes, attempt + 1,
            LoginRun(posted + [extra], if attempt == 1 then false else acc.loggingIn, acc.token));
      }
    }
  }

  /** The 1.5 s wait happens once for each attempt with index 0 or 2 that is made and throws:
      attempt 0 whenever it throws, attempt 2 when it is reached (neither earlier attempt
      succeeded) and throws. Nothing else waits. */
  lemma WaitRule(email: string, outcomes: seq<AttemptOutcome>)
    requires |outcomes| == MaxAttempts && Accepts(email)
    ensures WaitCount(LoginSpec(email, outcomes).events) ==
      (if outcomes[0] == Threw then 1 else 0)
      + (if !IsSuccess(outcomes[0]) && !IsSuccess(outcomes[1]) && outcomes[2] == Threw then 1 else 0)
  {
    AttemptsWaits(Normalise(email), outcomes, 0, LoginRun([], true, None));
    assert WaitCount([]) == 0;
  }

  /** `n` POSTs of `email`. */
  function Posts(email: string, n: nat): seq<LoginEvent> {
    if n == 0 then [] else [Post(email)] + Posts(email, n - 1)
  }

  lemma {:induction false} AttemptsWithoutThrows(email: string, outcomes: seq<AttemptOutcome>, attempt: nat, acc: LoginRun)
    requires |outcomes| == MaxAttempts && attempt <= MaxAttempts
    requires forall j :: attempt <= j < MaxAttempts ==> outcomes[j].Responded?
    ensures var f := FirstSuccess(outcomes, attempt);
      Attempts(email, outcomes, attempt, acc).events ==
        acc.events + Posts(email, (if f < MaxAttempts then f + 1 else MaxAttempts) - attempt)
        + (if f < MaxAttempts then [SuccessToast, RedirectLater("/dashboard", 500)] else [])
    decreases MaxAttempts - attempt
  {
    if attempt < MaxAttempts {
      var posted := acc.events + [Post(email)];
      var f := FirstSuccess(outcomes, attempt);
      if IsSuccess(outcomes[attempt]) {
        assert f == attempt;
        assert Posts(email, 1) == [Post(email)];
      } else {
        AttemptsWithoutThrows(email, outcomes, attempt + 1, LoginRun(posted, false, acc.token));
        var n := (if f < MaxAttempts then f + 1 else MaxAttempts) - attempt;
        assert Posts(email, n) == [Post(email)] + Posts(email, n - 1);
      }
    }
  }

  /** When no attempt throws, a non-200 response adds its POST and nothing else: the run is one
      POST per attempt up to the first 200, followed by the success toast and the delayed
      redirect, or three POSTs alone. */
  lemma NoThrowRun(email: string, outcomes: seq<AttemptOutcome>)
    requires |outcomes| == MaxAttempts && Accepts(email)
    requires forall j :: 0 <= j < MaxAttempts ==> outcomes[j].Responded?
    ensures var f := FirstSuccess(outcomes, 0);
      LoginSpec(email, outcomes).events ==
        Posts(Normalise(email), if f < MaxAttempts then f + 1 else MaxAttempts)
        + (if f < MaxAttempts then [SuccessToast, RedirectLater("/dashboard", 500)] else [])
  {
    AttemptsWithoutThrows(Normalise(email), outcomes, 0, LoginRun([], true, None));
  }

  /** The "Login Failed" toast appears at most once, and exactly when attempt 1 is made and throws;
      in particular a throw on attempt 0 or 2 never shows it. */
  lemma FailureToastRule(email: string, outcomes: seq<AttemptOutcome>)
    requires |outcomes| == MaxAttempts && Accepts(email)
    ensures FailureToastCount(LoginSpec(email, outcomes).events) <= 1
    ensures FailureToastCount(LoginSpec(email, outcomes).events) == 1 <==>
      !IsSuccess(outcomes[0]) && outcomes[1] == Threw
  {
    AttemptsFailureToasts(Normalise(email), outcomes, 0, LoginRun([], true, None));
  }

  /** However the attempts end, the busy flag is cleared when the handler is done. */
  lemma LoginEndsIdle(email: string, outcomes: seq<AttemptOutcome>)
    requires |outcomes| == MaxAttempts
    ensures !LoginSpec(email, outcomes).loggingIn
  {
    if Accepts(email) {
      var e := Normalise(email);
      AttemptsUnfold(e, outcomes, 0, LoginRun([], true, None));
      if !IsSuccess(outcomes[0]) {
        var acc1 := match outcomes[0]
          case Responded(_, _) => LoginRun([Post(e)], false, None)
          case Threw => LoginRun([Post(e), Wait(1500)], true, None);
        AttemptsUnfold(e, outcomes, 1, acc1);
        var posted := acc1.events + [Post(e)];
        if !IsSuccess(outcomes[1]) {
          var acc2 := LoginRun(if outcomes[1] == Threw then posted + [FailureToast] else posted, false, None);
          AttemptsUnfold(e, outcomes, 2, acc2);
        }
      }
    }
  }

  /** Three thrown failures: a wait after the first, the toast after the second, a third POST
      anyway and a wait after it. */
  lemma ThreeThrows(email: string)
    requires Accepts(email)
    ensures var e := Normalise(email);
      LoginSpec(email, [Threw, Threw, Threw]) ==
        LoginRun([Post(e), Wait(1500), Post(e), FailureToast, Post(e), Wait(1500)], false, None)
  {
  }

  /** Non-200 responses move straight on: three POSTs, no toast, no wait. */
  lemma ThreeRefusals(email: string, s0: int, s1: int, s2: int, t: string)
    requires Accepts(email) && s0 != 200 && s1 != 200 && s2 != 200
    ensures var e := Normalise(email);
      LoginSpec(email, [Responded(s0, t), Responded(s1, t), Responded(s2, t)]) ==
        LoginRun([Post(e), Post(e), Post(e)], false, None)
  {
  }
}
