/**
 Scheduled-mode slot arithmetic. Times are whole seconds since the Unix epoch. A cron
 schedule is any function whose next fire time lies strictly after its argument.
 */
module Scheduler {
  import opened Prelude
  import opened Decimal

  type Time = nat

  /** A cron schedule: the first fire time after the argument. */
  type Schedule = Time -> Time

  /** The one property of the cron library that the code relies on. */
  ghost predicate Cron(schedule: Schedule) {
    forall t :: schedule(t) > t
  }

  datatype DuePair = DuePair(due: Option<Time>, next: Time)

  /** Slot `s` is `first` itself or is reached from it by firing the schedule. */
  ghost predicate Fires(schedule: Schedule, first: Time, s: Time)
    requires Cron(schedule)
    decreases s - first
  {
    first == s || (first < s && Fires(schedule, schedule(first), s))
  }

  /** What LatestDue promises: no due slot before `first`, else the last slot up to `now`. */
  ghost predicate IsLatestDue(schedule: Schedule, first: Time, now: Time, r: DuePair)
    requires Cron(schedule)
  {
    match r.due
    case None => now < first && r.next == first
    case Some(due) => Fires(schedule, first, due) && due <= now < r.next && r.next == schedule(due)
  }

  /** The promise determines the answer. */
  lemma LatestDueUnique(schedule: Schedule, first: Time, now: Time, a: DuePair, b: DuePair)
    requires Cron(schedule)
    requires IsLatestDue(schedule, first, now, a) && IsLatestDue(schedule, first, now, b)
    ensures a == b
  {
    if a.due.Some? && b.due.Some? {
      if a.due.value < b.due.value { FiresComparable(schedule, first, a.due.value, b.due.value); }
      if b.due.value < a.due.value { FiresComparable(schedule, first, b.due.value, a.due.value); }
    }
  }

  /** Of two slots of one chain the later one is no earlier than the successor of the first. */
  lemma {:induction false} FiresComparable(schedule: Schedule, first: Time, s: Time, t: Time)
    requires Cron(schedule) && Fires(schedule, first, s) && Fires(schedule, first, t) && s < t
    ensures schedule(s) <= t && Fires(schedule, schedule(s), t)
    decreases s - first
  {
    if first != s { FiresComparable(schedule, schedule(first), s, t); }
  }

  lemma {:induction false} FiresStep(schedule: Schedule, first: Time, s: Time)
    requires Cron(schedule) && Fires(schedule, first, s)
    ensures Fires(schedule, first, schedule(s))
    decreases s - first
  {
    if first != s { FiresStep(schedule, schedule(first), s); }
  }

  /** Specification function: the unique answer that satisfies IsLatestDue. */
  ghost function LatestDueOf(schedule: Schedule, first: Time, now: Time): (r: DuePair)
    requires Cron(schedule)
    ensures IsLatestDue(schedule, first, now, r)
    decreases if first <= now then now - first + 1 else 0
  {
    if now < first then DuePair(None, first)
    else if now < schedule(first) then DuePair(Some(first), schedule(first))
    else LatestDueOf(schedule, schedule(first), now)
  }

  method LatestDue(schedule: Schedule, first: Time, now: Time) returns (due: Option<Time>, next: Time)
    requires Cron(schedule)
    ensures IsLatestDue(schedule, first, now, DuePair(due, next))
  {
    if first > now {
      return None, first;
    }
    var last := first;
    next := schedule(last);
    while next <= now
      invariant Fires(schedule, first, last) && last <= now && next == schedule(last)
      decreases now - last
    {
      FiresStep(schedule, first, last);
      last := next;
      next := schedule(next);
    }
    due := Some(last);
  }

  /** A slot of the chain that is already past is never overtaken by an earlier answer. */
  lemma LatestDueNotBefore(schedule: Schedule, first: Time, now: Time, s: Time)
    requires Cron(schedule) && Fires(schedule, first, s) && s <= now
    ensures var r := LatestDueOf(schedule, first, now);
            r.due.Some? && s <= r.due.value
  {
    var r := LatestDueOf(schedule, first, now);
    if r.due.Some? && r.due.value < s { FiresComparable(schedule, first, r.due.value, s); }
  }

  const MAX_NAME_LENGTH: nat := 63
  const HASH_LENGTH: nat := 8

  function TrimRightDashes(s: string): (r: string)
    ensures |r| <= |s|
  {
    if s != [] && s[|s| - 1] == '-' then TrimRightDashes(s[..|s| - 1]) else s
  }

  /** `hash` stands for the hex SHA-256 of the Agent name; only its length is used. */
  function RunName(hash: string -> string, agentName: string, slot: Time): (name: string)
    requires |hash(agentName)| >= HASH_LENGTH
    requires slot <= MAX_INT64
    ensures |name| <= MAX_NAME_LENGTH
  {
    DecLength64(slot);
    var slotSuffix := "-" + Dec(slot);
    if |agentName| + |slotSuffix| <= MAX_NAME_LENGTH then agentName + slotSuffix
    else
      var hashSuffix := "-" + hash(agentName)[..HASH_LENGTH] + slotSuffix;
      var prefixLength := MAX_NAME_LENGTH - |hashSuffix|;
      TrimRightDashes(agentName[..prefixLength]) + hashSuffix
  }

  /** What TrimRightDashes takes away. */
  lemma {:induction false} TrimmedDashes(s: string) returns (dashes: string)
    ensures s == TrimRightDashes(s) + dashes && (forall c :: c in dashes ==> c == '-')
    ensures TrimRightDashes(s) != "" ==> TrimRightDashes(s)[|TrimRightDashes(s)| - 1] != '-'
  {
    if s != [] && s[|s| - 1] == '-' {
      dashes := TrimmedDashes(s[..|s| - 1]);
      dashes := dashes + "-";
    } else {
      dashes := "";
    }
  }

  /** A long name is cut, and its dashes with it, so that with digest and slot it has at most 63 characters. */
  ghost predicate IsCutName(name: string, agentName: string, digest: string, suffix: string) {
    exists stem: string, dashes: string :: IsCutAt(name, agentName, digest, suffix, stem, dashes)
  }

  ghost predicate IsCutAt(name: string, agentName: string, digest: string, suffix: string, stem: string, dashes: string) {
    && name == stem + "-" + digest + suffix
    && stem + dashes <= agentName && |stem + dashes| + 1 + |digest| + |suffix| == 63
    && (forall c :: c in dashes ==> c == '-') && (stem != "" ==> stem[|stem| - 1] != '-')
  }

  /** The name of a slot's run: Agent and slot, or what is left of the Agent's name, its digest and the slot. */
  lemma RunNameIs(hash: string -> string, agentName: string, slot: Time)
    requires |hash(agentName)| >= 8 && slot <= MAX_INT64
    ensures var name, suffix := RunName(hash, agentName, slot), "-" + Dec(slot);
            if |agentName| + |suffix| <= 63 then name == agentName + suffix
            else IsCutName(name, agentName, hash(agentName)[..8], suffix)
  {
    DecLength64(slot);
    var name, suffix := RunName(hash, agentName, slot), "-" + Dec(slot);
    if |agentName| + |suffix| > 63 {
      var digest := hash(agentName)[..8];
      var cut := agentName[..63 - |"-" + digest + suffix|];
      var dashes := TrimmedDashes(cut);
      assert IsCutAt(name, agentName, digest, suffix, TrimRightDashes(cut), dashes);
    }
  }

  /** Whatever stands before the slot, the name ends in '-' and the slot's digits. */
  lemma RunNameShape(hash: string -> string, agentName: string, slot: Time) returns (stem: string)
    requires |hash(agentName)| >= HASH_LENGTH && slot <= MAX_INT64
    ensures RunName(hash, agentName, slot) == stem + "-" + Dec(slot)
  {
    DecLength64(slot);
    var slotSuffix := "-" + Dec(slot);
    if |agentName| + |slotSuffix| <= MAX_NAME_LENGTH {
      stem := agentName;
      assert agentName + slotSuffix == stem + "-" + Dec(slot);
    } else {
      var hashed := "-" + hash(agentName)[..HASH_LENGTH];
      var prefixLength := MAX_NAME_LENGTH - |hashed + slotSuffix|;
      var prefix := TrimRightDashes(agentName[..prefixLength]);
      stem := prefix + hashed;
      assert prefix + (hashed + slotSuffix) == stem + "-" + Dec(slot);
    }
  }

  /** Two Agents' slots share a name only if it is the same slot: truncation never merges slots. */
  lemma RunNameDeterminesSlot(hash: string -> string, a: string, s: Time, b: string, t: Time)
    requires |hash(a)| >= HASH_LENGTH && |hash(b)| >= HASH_LENGTH
    requires s <= MAX_INT64 && t <= MAX_INT64
    requires RunName(hash, a, s) == RunName(hash, b, t)
    ensures s == t
  {
    var p := RunNameShape(hash, a, s);
    var q := RunNameShape(hash, b, t);
    DashDecInjective(p, s, q, t);
  }
}
