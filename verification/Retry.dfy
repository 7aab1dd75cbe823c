// Retry and cooldown decisions (src/services/retry.rs), folded over whole submit histories.
// Times are whole milliseconds.
module Retry {
  import opened Text
  import opened Wrappers

  datatype Policy = KeepBest | KeepLatest

  /** `max_attempts <= 0` means unlimited; no cooldown at 0. */
  datatype Config = Config(maxAttempts: int, cooldownSeconds: int, policy: Policy, lockOnPass: bool)

  datatype Existing = Existing(attempts: int, lastAt: int, score: Option<int>, passed: Option<bool>)

  datatype DenyReason =
    | AlreadyPassed
    | AttemptsExhausted(max: int)
    | Cooldown(retryAfterSeconds: int, nextAt: int)

  datatype Accepted = Accepted(overwrite: bool, score: Option<int>, passed: Option<bool>, attempts: int)

  function SaturatingIncrement(i: int): int {
    if i >= I32_MAX then I32_MAX else i + 1
  }

  function Or(a: Option<bool>, b: Option<bool>): Option<bool> {
    if a.None? && b.None? then None else Some(a == Some(true) || b == Some(true))
  }

  function NextAt(config: Config, e: Existing): int {
    e.lastAt + config.cooldownSeconds * 1000
  }

  function Ceiling(millis: int): int
    requires millis >= 0
  {
    (millis + 999) / 1000
  }

  function Decide(now: int, config: Config, existing: Option<Existing>, score: Option<int>, passed: Option<bool>)
    : Result<Accepted, DenyReason>
  {
    if existing.None? then Ok(Accepted(true, score, passed, 1))
    else
      var e := existing.value;
      if config.lockOnPass && e.passed == Some(true) then Err(AlreadyPassed)
      else if config.maxAttempts > 0 && e.attempts >= config.maxAttempts then Err(AttemptsExhausted(config.maxAttempts))
      else if config.cooldownSeconds > 0 && now < NextAt(config, e) then
        var wait := Ceiling(NextAt(config, e) - now);
        Err(Cooldown(if wait < 1 then 1 else wait, NextAt(config, e)))
      else
        var attempts := SaturatingIncrement(e.attempts);
        if config.policy.KeepBest? && e.score.Some? && score.Some? then
          var improved := score.value > e.score.value;
          Ok(Accepted(improved, if improved then score else e.score, Or(e.passed, passed), attempts))
        else Ok(Accepted(true, score, passed, attempts))
  }

  /** The countdown a refused member sees is exact: waiting that many seconds ends the
      cooldown, and one second less does not. */
  lemma CooldownCountdownIsTight(now: int, config: Config, e: Existing, score: Option<int>, passed: Option<bool>)
    requires Decide(now, config, Some(e), score, passed).Err?
    requires Decide(now, config, Some(e), score, passed).error.Cooldown?
    ensures var wait := Decide(now, config, Some(e), score, passed).error.retryAfterSeconds;
      && wait >= 1
      && Decide(now + wait * 1000, config, Some(e), score, passed).Ok?
      && Decide(now + (wait - 1) * 1000, config, Some(e), score, passed).Err?
  {
  }

  // -------------------------------------------------------------------------
  // The status shown before submitting
  // -------------------------------------------------------------------------

  datatype BlockedReason = Passed | Exhausted

  datatype Status = Status(
    attemptsUsed: int, attemptsLeft: Option<int>, nextAt: Option<int>, blocked: Option<BlockedReason>, passed: Option<bool>)

  /** `build_retry_status` in src/routes/form_render.rs. */
  method BuildRetryStatus(config: Config, existing: Option<Existing>, now: int) returns (status: Status)
    ensures status == StatusOf(config, existing, now)
  {
    var used := if existing.Some? then existing.value.attempts else 0;
    var left: Option<int> := None;
    if config.maxAttempts > 0 {
      left := Some(if config.maxAttempts - used < 0 then 0 else config.maxAttempts - used);
    }
    var blocked: Option<BlockedReason> := None;
    var nextAt: Option<int> := None;
    var passed: Option<bool> := None;
    if existing.Some? {
      var e := existing.value;
      passed := e.passed;
      if config.lockOnPass && e.passed == Some(true) {
        blocked := Some(Passed);
      } else if config.maxAttempts > 0 && e.attempts >= config.maxAttempts {
        blocked := Some(Exhausted);
      } else if config.cooldownSeconds > 0 {
        var next := e.lastAt + config.cooldownSeconds * 1000;
        if now < next {
          nextAt := Some(next);
        }
      }
    }
    status := Status(used, left, nextAt, blocked, passed);
  }

  /** The status in terms of what a submission right now would be told. */
  function StatusOf(config: Config, existing: Option<Existing>, now: int): Status {
    var verdict := Decide(now, config, existing, None, None);
    var used := if existing.Some? then existing.value.attempts else 0;
    Status(
      used,
      if config.maxAttempts <= 0 then None else Some(if config.maxAttempts < used then 0 else config.maxAttempts - used),
      if verdict.Err? && verdict.error.Cooldown? then Some(verdict.error.nextAt) else None,
      if verdict.Err? && verdict.error.AlreadyPassed? then Some(Passed)
      else if verdict.Err? && verdict.error.AttemptsExhausted? then Some(Exhausted)
      else None,
      if existing.Some? then existing.value.passed else None)
  }

  /** The page blocks the submit button, or shows a countdown, exactly when the submit handler
      would refuse at that moment, for the same reason and whatever is submitted. */
  lemma StatusPredictsDecision(config: Config, existing: Option<Existing>, now: int, score: Option<int>, passed: Option<bool>)
    ensures var (status, verdict) := (StatusOf(config, existing, now), Decide(now, config, existing, score, passed));
      && (verdict.Ok? <==> status.blocked.None? && status.nextAt.None?)
      && (verdict == Err(AlreadyPassed) <==> status.blocked == Some(Passed))
      && (verdict.Err? && verdict.error.AttemptsExhausted? <==> status.blocked == Some(Exhausted))
      && (forall next :: status.nextAt == Some(next) <==> verdict.Err? && verdict.error.Cooldown? && verdict.error.nextAt == next)
  {
  }

  // -------------------------------------------------------------------------
  // Histories
  // -------------------------------------------------------------------------

  /** One graded submission. `stamp` is the transaction's start time, which the row records;
      `now` is the handler's clock, read later. */
  datatype Submission<A> = Submission(now: int, stamp: int, answers: A, version: int, score: Option<int>, passed: Option<bool>)

  /** The canonical response row of one member. */
  datatype Canonical<A> = Canonical(answers: A, version: int, score: Option<int>, passed: Option<bool>, attempts: int, lastAt: int)

  function ExistingOf<A>(row: Option<Canonical<A>>): Option<Existing> {
    if row.None? then None
    else Some(Existing(row.value.attempts, row.value.lastAt, row.value.score, row.value.passed))
  }

  function Verdict<A>(config: Config, row: Option<Canonical<A>>, s: Submission<A>): Result<Accepted, DenyReason> {
    Decide(s.now, config, ExistingOf(row), s.score, s.passed)
  }

  /** The row after a submission: a refused one changes nothing. */
  function Apply<A>(config: Config, row: Option<Canonical<A>>, s: Submission<A>): Option<Canonical<A>> {
    var verdict := Verdict(config, row, s);
    if verdict.Err? then row
    else
      var a := verdict.value;
      var keep := row.Some? && !a.overwrite;
      Some(Canonical(
        if keep then row.value.answers else s.answers,
        if keep then row.value.version else s.version,
        a.score, a.passed, a.attempts, s.stamp))
  }

  /** The row after a history, oldest submission first. */
  function Fold<A>(config: Config, history: seq<Submission<A>>): Option<Canonical<A>> {
    if history == [] then None
    else Apply(config, Fold(config, history[..|history| - 1]), history[|history| - 1])
  }

  /** The submissions of a history that were accepted. */
  function AcceptedOf<A>(config: Config, history: seq<Submission<A>>): seq<Submission<A>> {
    if history == [] then []
    else
      var (before, last) := (history[..|history| - 1], history[|history| - 1]);
      AcceptedOf(config, before) + if Verdict(config, Fold(config, before), last).Ok? then [last] else []
  }

  /** The row counts the accepted attempts (saturating at the column's width), a positive limit
      is never exceeded, and consecutive accepted attempts are at least the cooldown apart. */
  lemma {:induction false} LimitsHold<A>(config: Config, history: seq<Submission<A>>)
    ensures var (row, accepted) := (Fold(config, history), AcceptedOf(config, history));
      && (row.None? <==> accepted == [])
      && (row.Some? ==>
            && row.value.attempts == (if |accepted| <= I32_MAX then |accepted| else I32_MAX)
            && row.value.lastAt == accepted[|accepted| - 1].stamp)
      && (0 < config.maxAttempts <= I32_MAX ==> |accepted| <= config.maxAttempts)
      && (config.cooldownSeconds > 0 ==> forall i | 0 < i < |accepted| ::
            accepted[i].now >= accepted[i - 1].stamp + config.cooldownSeconds * 1000)
  {
    if history != [] {
      LimitsHold(config, history[..|history| - 1]);
    }
  }

  /** The first of the best-scored submissions. */
  ghost predicate FirstBest<A>(subs: seq<Submission<A>>, i: nat)
    requires forall s | s in subs :: s.score.Some?
  {
    && i < |subs|
    && (forall j | 0 <= j < |subs| :: subs[j].score.value <= subs[i].score.value)
    && (forall j | 0 <= j < i :: subs[j].score.value < subs[i].score.value)
  }

  lemma {:induction false} AcceptedAreSubmitted<A>(config: Config, history: seq<Submission<A>>)
    ensures forall s | s in AcceptedOf(config, history) :: s in history
  {
    if history != [] {
      AcceptedAreSubmitted(config, history[..|history| - 1]);
    }
  }

  /** Scored, as every quiz is, with or without a passing score. */
  ghost predicate Scored<A>(history: seq<Submission<A>>) {
    forall s | s in history :: s.score.Some?
  }

  lemma {:induction false} BestIsKept<A>(config: Config, history: seq<Submission<A>>) returns (best: nat)
    requires config.policy.KeepBest? && Scored(history) && Fold(config, history).Some?
    ensures Scored(AcceptedOf(config, history)) && FirstBest(AcceptedOf(config, history), best)
    ensures var (row, winner) := (Fold(config, history).value, AcceptedOf(config, history)[best]);
      row.score == winner.score && row.answers == winner.answers && row.version == winner.version
  {
    AcceptedAreSubmitted(config, history);
    var (before, last) := (history[..|history| - 1], history[|history| - 1]);
    AcceptedAreSubmitted(config, before);
    LimitsHold(config, before);
    var row := Fold(config, before);
    assert last in history;
    if row.None? {
      best := 0;
    } else {
      best := BestIsKept(config, before);
      var verdict := Verdict(config, row, last);
      if verdict.Ok? && verdict.value.overwrite {
        best := |AcceptedOf(config, before)|;
      }
    }
  }

  /** Marked as a quiz with that passing score, or with none, marks its submissions. */
  ghost predicate Marked<A>(history: seq<Submission<A>>, passing: Option<int>) {
    forall s | s in history :: s.score.Some? && s.passed == if passing.None? then None else Some(s.score.value >= passing.value)
  }

  lemma {:induction false} RowIsMarked<A>(config: Config, history: seq<Submission<A>>, passing: Option<int>)
    requires config.policy.KeepBest? && Marked(history, passing) && Fold(config, history).Some?
    ensures var row := Fold(config, history).value;
      row.score.Some? && row.passed == if passing.None? then None else Some(row.score.value >= passing.value)
  {
    var (before, last) := (history[..|history| - 1], history[|history| - 1]);
    assert last in history;
    if Fold(config, before).Some? {
      RowIsMarked(config, before, passing);
    }
  }

  /** Under keep_best on a scored form the row holds the earliest best accepted attempt: its
      score, its answers and its schema version. Where there is a passing score the row is marked
      passed exactly when that score reaches it; where there is none it is never marked. */
  lemma KeepBestKeepsTheBest<A>(config: Config, history: seq<Submission<A>>) returns (best: nat)
    requires config.policy.KeepBest? && Scored(history) && Fold(config, history).Some?
    ensures Scored(AcceptedOf(config, history))
    ensures FirstBest(AcceptedOf(config, history), best)
    ensures var (row, winner) := (Fold(config, history).value, AcceptedOf(config, history)[best]);
      && row.score == winner.score && row.answers == winner.answers && row.version == winner.version
      && (forall passing :: Marked(history, passing) ==>
            row.passed == if passing.None? then None else Some(winner.score.value >= passing.value))
  {
    best := BestIsKept(config, history);
    forall passing | Marked(history, passing)
      ensures var row := Fold(config, history).value;
        row.passed == if passing.None? then None else Some(row.score.value >= passing.value)
    {
      RowIsMarked(config, history, passing);
    }
  }

  /** Under keep_latest, and on forms without scores, the row is the last accepted attempt. */
  lemma {:induction false} KeepLatestKeepsTheLast<A>(config: Config, history: seq<Submission<A>>)
    requires config.policy.KeepLatest? || forall s | s in history :: s.score.None?
    requires Fold(config, history).Some?
    ensures AcceptedOf(config, history) != []
    ensures var (row, accepted) := (Fold(config, history).value, AcceptedOf(config, history));
      var last := accepted[|accepted| - 1];
      row.answers == last.answers && row.version == last.version && row.score == last.score && row.passed == last.passed
  {
    var (before, last) := (history[..|history| - 1], history[|history| - 1]);
    assert last in history;
    LimitsHold(config, before);
    if Fold(config, before).Some? {
      KeepLatestKeepsTheLast(config, before);
    }
  }

  /** The scores, answers and schema version of a row always come from one accepted attempt,
      whatever the policy and however graded and ungraded submissions mix. */
  lemma {:induction false} RowIsOneAttempt<A>(config: Config, history: seq<Submission<A>>)
    requires Fold(config, history).Some?
    ensures exists s | s in AcceptedOf(config, history) :: var row := Fold(config, history).value;
      s.answers == row.answers && s.version == row.version && s.score == row.score
  {
    var (before, last) := (history[..|history| - 1], history[|history| - 1]);
    if Fold(config, before).Some? {
      RowIsOneAttempt(config, before);
    }
  }

  // -------------------------------------------------------------------------
  // Passing sticks
  // -------------------------------------------------------------------------

  /** The row after more submissions. */
  function Continue<A>(config: Config, row: Canonical<A>, more: seq<Submission<A>>): Canonical<A> {
    if more == [] then row
    else Apply(config, Some(Continue(config, row, more[..|more| - 1])), more[|more| - 1]).value
  }

  /** No later submission can lower a score of at least the threshold below it. */
  predicate Safe<A>(config: Config, row: Canonical<A>, threshold: int) {
    || threshold <= 0
    || config.policy.KeepBest?
    || config.lockOnPass
    || (config.maxAttempts > 0 && row.attempts >= config.maxAttempts)
  }

  ghost predicate GradedFromZero<A>(more: seq<Submission<A>>, threshold: int) {
    Marked(more, Some(threshold)) && forall s | s in more :: s.score.value >= 0
  }

  lemma {:induction false} SafeRowsStay<A>(config: Config, row: Canonical<A>, more: seq<Submission<A>>, threshold: int)
    requires row.score.Some? && row.score.value >= threshold && row.passed == Some(true)
    requires Safe(config, row, threshold) && GradedFromZero(more, threshold)
    ensures var later := Continue(config, row, more);
      later.score.Some? && later.score.value >= threshold && later.passed == Some(true) && Safe(config, later, threshold)
  {
    if more != [] {
      var before := more[..|more| - 1];
      assert GradedFromZero(before, threshold);
      SafeRowsStay(config, row, before, threshold);
      assert more[|more| - 1] in more;
    }
  }

  /** Whether "passed" is a promise: a passed row can never fall below the threshold exactly
      when the form keeps the best attempt, locks on a pass, has no attempts left, or asks for
      no points at all. */
  lemma PassingSticksExactly<A>(config: Config, row: Canonical<A>, threshold: int)
    requires row.score.Some? && row.score.value >= threshold && row.passed == Some(true)
    ensures Safe(config, row, threshold) <==>
      forall more: seq<Submission<A>> :: GradedFromZero(more, threshold) ==>
        Continue(config, row, more).score.Some? && Continue(config, row, more).score.value >= threshold
  {
    if Safe(config, row, threshold) {
      forall more: seq<Submission<A>> | GradedFromZero(more, threshold)
        ensures Continue(config, row, more).score.Some? && Continue(config, row, more).score.value >= threshold
      {
        SafeRowsStay(config, row, more, threshold);
      }
    } else {
      // A blank attempt after the cooldown replaces the passing one.
      var next := NextAt(config, ExistingOf(Some(row)).value);
      var blank := Submission(next, next, row.answers, row.version, Some(0), Some(false));
      var more := [blank];
      assert more[..0] == [];
      assert Continue(config, row, []) == row;
      assert Continue(config, row, more) == Apply(config, Some(row), blank).value;
      assert GradedFromZero(more, threshold);
    }
  }
}
