// Access tokens and the clock arithmetic that decides whether a token is still usable,
// is about to expire or has expired, and when its refresh timer fires.
module TokenClock {
  import opened Options

  // `exp` is in seconds; clock readings are in milliseconds.
  datatype Token =
    | Jwt(serial: nat, exp: int, device: string)
    | Opaque(serial: nat)

  // The three readings of the clock that one synchronous stretch of code can make.
  datatype Clock = Clock(first: int, second: int, third: int)

  // `decodeToken` throws on anything else.
  predicate Decodes(t: Token) {
    t.Jwt? && t.exp != 0 && t.device != ""
  }

  function Seconds(ms: int): int {
    ms / 1000
  }

  predicate Expired(exp: int, ms: int) {
    exp - Seconds(ms) <= 0
  }

  predicate ExpiringSoon(exp: int, ms: int, minutes: int) {
    0 < exp - Seconds(ms) <= minutes * 60
  }

  predicate Fresh(exp: int, ms: int, minutes: int) {
    exp - Seconds(ms) > 0 && exp - Seconds(ms) > minutes * 60
  }

  // The code asks "expired?" and then "expiring soon?" and reads the clock each time.
  predicate JudgedFresh(exp: int, minutes: int, clock: Clock) {
    !Expired(exp, clock.first) && !ExpiringSoon(exp, clock.second, minutes)
  }

  // The delay in milliseconds given to `setTimeout`, if a refresh is scheduled at all.
  function RefreshDelay(exp: int, ms: int, minutes: int): Option<int> {
    var before := exp - Seconds(ms) - minutes * 60;
    if minutes > 0 && before > 0 then Some(before * 1000) else None
  }

  // Every token is in exactly one of the three classes at any instant.
  lemma ExactlyOneClass(exp: int, ms: int, minutes: int)
    ensures Expired(exp, ms) || ExpiringSoon(exp, ms, minutes) || Fresh(exp, ms, minutes)
    ensures !(Expired(exp, ms) && ExpiringSoon(exp, ms, minutes))
    ensures !(Expired(exp, ms) && Fresh(exp, ms, minutes))
    ensures !(ExpiringSoon(exp, ms, minutes) && Fresh(exp, ms, minutes))
  {
  }

  // In milliseconds: a token is expired from its `exp` on, expiring soon from the threshold before it on, and
  // fresh until then.
  lemma ClassesByInstant(exp: int, ms: int, minutes: int)
    ensures Expired(exp, ms) <==> ms >= 1000 * exp
    ensures Fresh(exp, ms, minutes) <==> ms < 1000 * exp && ms < 1000 * (exp - 60 * minutes)
    ensures ExpiringSoon(exp, ms, minutes) <==> 1000 * (exp - 60 * minutes) <= ms < 1000 * exp
  {
  }

  // Two readings on a clock that does not go back can misjudge a token in exactly one way: it
  // expires between them. Otherwise "judged fresh" means fresh at the second reading.
  lemma JudgedFreshExactly(exp: int, minutes: int, clock: Clock)
    requires clock.first <= clock.second
    ensures JudgedFresh(exp, minutes, clock) <==>
            Fresh(exp, clock.second, minutes) ||
            (!Expired(exp, clock.first) && Expired(exp, clock.second))
  {
    SecondsMonotone(clock.first, clock.second);
  }

  // A token that expires in the millisecond between the two readings.
  lemma JudgedFreshWhileExpiring(minutes: nat)
    ensures var clock := Clock(9999, 10000, 10000); JudgedFresh(10, minutes, clock) && Expired(10, clock.second)
  {
  }

  lemma SecondsMonotone(a: int, b: int)
    requires a <= b
    ensures Seconds(a) <= Seconds(b)
  {
  }

  // A refresh is scheduled exactly when auto-refresh is on and the token is fresh.
  lemma ScheduledExactlyWhenFresh(exp: int, ms: int, minutes: int)
    ensures RefreshDelay(exp, ms, minutes).Some? <==> minutes > 0 && Fresh(exp, ms, minutes)
  {
  }

  // A timer set at `setAt` that fires `late` milliseconds late finds its token expiring soon, and
  // so takes the refresh branch, exactly when the part of a second already spent when it was set
  // plus the lateness stays below the threshold; from then on it finds the token expired. It never
  // finds the token fresh.
  lemma TimerTakesRefreshBranch(exp: int, setAt: int, minutes: int, late: nat)
    requires RefreshDelay(exp, setAt, minutes).Some?
    ensures var firesAt := setAt + RefreshDelay(exp, setAt, minutes).value + late;
            && (ExpiringSoon(exp, firesAt, minutes) <==> setAt % 1000 + late < minutes * 60 * 1000)
            && (Expired(exp, firesAt) <==> setAt % 1000 + late >= minutes * 60 * 1000)
            && !Fresh(exp, firesAt, minutes)
  {
    var base := exp - minutes * 60;
    var firesAt := setAt + RefreshDelay(exp, setAt, minutes).value + late;
    var spent := setAt % 1000 + late;
    assert setAt == 1000 * Seconds(setAt) + setAt % 1000;
    assert firesAt == base * 1000 + spent;
    ShiftSeconds(base, spent);
    assert Seconds(firesAt) == base + spent / 1000;
    ShiftSeconds(minutes * 60, spent - minutes * 60 * 1000);
  }

  lemma ShiftSeconds(whole: int, rest: int)
    ensures Seconds(whole * 1000 + rest) == whole + Seconds(rest)
  {
  }
}
