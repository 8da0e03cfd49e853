/** The periodic sweep of utils/auto_hide.py: users idle for too long are
  * marked hidden. Times are integer seconds; one run of the sweep is one
  * pass of the loop body. */
module AutoHide {
  import opened Text
  import opened Tables
  import Store

  /** Idle time after which a user still registering is hidden (60 minutes). */
  const RegistrationTimeout: int := 60 * 60
  /** Idle time after which a registered or approved user is hidden (8 hours). */
  const RegisteredTimeout: int := 8 * 60 * 60
  /** Pause between sweeps. */
  const CheckInterval: nat := 300

  const RegistrationStatuses: seq<string> :=
    ["new", "chatting", "waiting_photos", "asking_work_hours", "asking_experience", "pending_review",
     "helping_registration", "waiting_screenshot", "waiting_admin"]
  const RegisteredStatuses: seq<string> := ["registered", "approved"]

  /** The WHERE clause of one UPDATE: not hidden yet, a listed status, and
    * last active strictly before the cutoff. */
  predicate Eligible(u: User, statuses: seq<string>, cutoff: int)
  {
    u.hiddenAt.None? && u.status in statuses && u.lastActivity < cutoff
  }

  /** One UPDATE: every eligible row gets `hidden_at = now`. */
  function Sweep(us: seq<User>, statuses: seq<string>, cutoff: int, now: int): (r: seq<User>)
    ensures |r| == |us|
  {
    seq(|us|, i requires 0 <= i < |us| => if Eligible(us[i], statuses, cutoff) then us[i].(hiddenAt := Some(now)) else us[i])
  }

  /** How many rows an UPDATE touches (`cursor.rowcount`). */
  function CountEligible(us: seq<User>, statuses: seq<string>, cutoff: int): (n: nat)
    ensures n <= |us|
  {
    if |us| == 0 then 0
    else CountEligible(us[..|us| - 1], statuses, cutoff) + (if Eligible(us[|us| - 1], statuses, cutoff) then 1 else 0)
  }

  /** One sweep at time `now`: the registration UPDATE, then the
    * registered one. */
  function AutoHide(us: seq<User>, now: int): seq<User>
  {
    Sweep(Sweep(us, RegistrationStatuses, now - RegistrationTimeout, now), RegisteredStatuses, now - RegisteredTimeout, now)
  }

  /** The rule the sweep implements for one user: hidden at `now` when not
    * hidden yet and idle past the timeout of its status group; every other
    * status is never hidden. */
  function HideRule(u: User, now: int): User
  {
    if u.hiddenAt.None? &&
       ((u.status in RegistrationStatuses && u.lastActivity < now - RegistrationTimeout) ||
        (u.status in RegisteredStatuses && u.lastActivity < now - RegisteredTimeout))
    then u.(hiddenAt := Some(now))
    else u
  }

  /** The two status groups share no status. */
  lemma StatusGroupsDisjoint()
    ensures forall s :: s in RegistrationStatuses ==> s !in RegisteredStatuses
  {
  }

  /** Running the two UPDATEs one after the other applies the rule to every
    * user independently; the second pass never sees a row the first one
    * hid. */
  lemma AutoHideIsRule(us: seq<User>, now: int)
    ensures |AutoHide(us, now)| == |us|
    ensures forall i :: 0 <= i < |us| ==> AutoHide(us, now)[i] == HideRule(us[i], now)
  {
    StatusGroupsDisjoint();
  }

  /** A sweep changes nothing but `hidden_at`, never unhides, never moves
    * an existing mark, and leaves rejected users alone. */
  lemma SweepOnlyHides(u: User, now: int)
    ensures HideRule(u, now).(hiddenAt := u.hiddenAt) == u
    ensures u.hiddenAt.Some? ==> HideRule(u, now) == u
    ensures u.status == "rejected" ==> HideRule(u, now) == u
    ensures HideRule(u, now).hiddenAt.Some?
      <==> u.hiddenAt.Some? || HideRule(u, now).hiddenAt == Some(now)
  {
  }

  /** The timeouts: a user registering is hidden once idle for more than an
    * hour, a registered one once idle for more than eight hours. */
  lemma HideRuleTimeouts(u: User, now: int)
    requires u.hiddenAt.None?
    ensures u.status in RegistrationStatuses ==>
      (HideRule(u, now).hiddenAt == Some(now) <==> now - u.lastActivity > 3600)
    ensures u.status in RegisteredStatuses ==>
      (HideRule(u, now).hiddenAt == Some(now) <==> now - u.lastActivity > 28800)
  {
  }

  /** A second sweep at the same time hides nobody else. */
  lemma AutoHideIdempotent(us: seq<User>, now: int)
    ensures AutoHide(AutoHide(us, now), now) == AutoHide(us, now)
  {
    AutoHideIsRule(us, now);
    AutoHideIsRule(AutoHide(us, now), now);
  }

  /** One UPDATE over the rows, returning the new rows and the row count. */
  method SweepPass(us: seq<User>, statuses: seq<string>, cutoff: int, now: int) returns (r: seq<User>, count: nat)
    ensures r == Sweep(us, statuses, cutoff, now)
    ensures count == CountEligible(us, statuses, cutoff)
  {
    r, count := [], 0;
    var i := 0;
    while i < |us|
      invariant 0 <= i <= |us| && |r| == i
      invariant forall k :: 0 <= k < i ==> r[k] == Sweep(us, statuses, cutoff, now)[k]
      invariant count == CountEligible(us[..i], statuses, cutoff)
    {
      assert us[..i + 1][..i] == us[..i];
      if Eligible(us[i], statuses, cutoff) {
        r := r + [us[i].(hiddenAt := Some(now))];
        count := count + 1;
      } else {
        r := r + [us[i]];
      }
      i := i + 1;
    }
    assert us[..i] == us;
  }

  /** One run of the sweep on the store; the two row counts are what the
    * sweep logs. */
  method AutoHideInactiveUsers(db: Store.Database, now: int) returns (registrationHidden: nat, registeredHidden: nat)
    modifies db
    ensures db.Snapshot() == old(db.Snapshot()).(users := AutoHide(old(db.users), now))
    ensures registrationHidden == CountEligible(old(db.users), RegistrationStatuses, now - RegistrationTimeout)
    ensures registeredHidden ==
      CountEligible(Sweep(old(db.users), RegistrationStatuses, now - RegistrationTimeout, now), RegisteredStatuses,
                    now - RegisteredTimeout)
  {
    var us;
    us, registrationHidden := SweepPass(db.users, RegistrationStatuses, now - RegistrationTimeout, now);
    db.users := us;
    us, registeredHidden := SweepPass(db.users, RegisteredStatuses, now - RegisteredTimeout, now);
    db.users := us;
  }
}
