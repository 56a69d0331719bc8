/**
 * The automatic sync timer of both panels. The browser's interval timers
 * are modelled as a map from timer id to period; the panel keeps one handle
 * variable. Timer ids handed out by `setInterval` are positive, so a handle
 * is truthy exactly when it is set.
 */
module AutoSync {
  import opened Base
  import opened JsNumber

  datatype Timers = Timers(running: map<nat, int>, handle: Option<nat>, next: nat)

  /** The page as loaded: no timer running, no handle. */
  const Idle := Timers(map[], None, 1)

  /**
   * The invariant both panels rely on: ids are positive and below the next
   * id, and any running timer is the one the handle names — so at most one
   * automatic sync is scheduled.
   */
  predicate Valid(t: Timers) {
    && t.next >= 1
    && (t.handle.Some? ==> 1 <= t.handle.value < t.next)
    && (forall id :: id in t.running ==> 1 <= id < t.next && t.handle == Some(id))
  }

  /** The interval in milliseconds for the panel's interval text: minutes, defaulting to 10. */
  function Period(setting: string): (ms: int)
    ensures ms != 0 && ms % 60000 == 0
    ensures ms / 60000 == IntervalMinutes(setting)
    ensures ParseInt(setting).None? ==> ms == 600000
  {
    var minutes := IntervalMinutes(setting);
    WholeMinutes(minutes);
    minutes * 60 * 1000
  }

  /** A whole number of minutes in milliseconds is a non-zero multiple of a minute when the count is non-zero. */
  lemma WholeMinutes(minutes: int)
    ensures (minutes * 60 * 1000) % 60000 == 0 && (minutes * 60 * 1000) / 60000 == minutes
    ensures minutes != 0 ==> minutes * 60 * 1000 != 0
  {
    assert minutes * 60 * 1000 == minutes * 60000;
  }

  /** `clearInterval(id)`: stops that timer; an id that is not running is ignored. */
  function Clear(t: Timers, id: nat): (r: Timers)
    ensures id !in r.running
    ensures forall k :: k in r.running <==> k in t.running && k != id
    ensures r.handle == t.handle && r.next == t.next
  {
    Timers(t.running - {id}, t.handle, t.next)
  }

  /** `autoSyncTimer = setInterval(..., period)`: a fresh timer, stored in the handle. */
  function Start(t: Timers, period: int): (r: Timers)
    ensures t.next in r.running && r.running[t.next] == period
    ensures r.handle == Some(t.next) && r.next == t.next + 1
    ensures forall k :: k in r.running <==> k in t.running || k == t.next
  {
    Timers(t.running[t.next := period], Some(t.next), t.next + 1)
  }

  /** The current panel's `manageAutoSync`: clear the handle's timer, start a new one when enabled. The handle is left as it was when disabled. */
  function Manage(t: Timers, checked: bool, setting: string): (r: Timers)
    ensures Valid(t) ==> Valid(r)
    ensures Valid(t) && checked ==> r.handle == Some(t.next) && r.running == map[t.next := Period(setting)]
    ensures Valid(t) && !checked ==> r.running == map[]
    ensures !checked ==> r.handle == t.handle
  {
    var cleared := match t.handle
      case Some(id) => Clear(t, id)
      case None => t;
    if checked then Start(cleared, Period(setting)) else cleared
  }

  /** The early panel's `manageAutoSync`: the same, but the handle is reset to null before restarting. */
  function LegacyManage(t: Timers, checked: bool, setting: string): (r: Timers)
    ensures Valid(t) ==> Valid(r)
    ensures Valid(t) && checked ==> r.handle == Some(t.next) && r.running == map[t.next := Period(setting)]
    ensures Valid(t) && !checked ==> r.running == map[]
    ensures !checked ==> r.handle == None
  {
    var cleared := match t.handle
      case Some(id) => Clear(t, id)
      case None => t;
    var reset := Timers(cleared.running, None, cleared.next);
    if checked then Start(reset, Period(setting)) else reset
  }

  /** The two variants schedule the same timers; they differ only in the stale handle left when disabling. */
  lemma VariantsScheduleAlike(t: Timers, checked: bool, setting: string)
    ensures Manage(t, checked, setting).running == LegacyManage(t, checked, setting).running
    ensures Manage(t, checked, setting).next == LegacyManage(t, checked, setting).next
    ensures checked ==> Manage(t, checked, setting) == LegacyManage(t, checked, setting)
  {
  }

  /** Disabling in the current panel keeps a handle to a timer that no longer runs. */
  lemma DisablingLeavesStaleHandle(setting: string)
    ensures var t := Manage(Manage(Idle, true, setting), false, setting);
      t.handle == Some(1) && 1 !in t.running
  {
  }

  /** A settings change applied to a state: the checkbox and the interval text. */
  datatype Change = Change(checked: bool, setting: string)

  /** One change handled by the current (`legacy` false) or the early panel. */
  function Step(t: Timers, c: Change, legacy: bool): Timers {
    if legacy then LegacyManage(t, c.checked, c.setting) else Manage(t, c.checked, c.setting)
  }

  function ApplyAll(t: Timers, changes: seq<Change>, legacy: bool): Timers
    decreases changes
  {
    if changes == [] then t
    else ApplyAll(Step(t, changes[0], legacy), changes[1..], legacy)
  }

  /** After one change: enabled means exactly the new timer runs, with the change's interval; disabled means none runs. */
  lemma StepSettles(t: Timers, c: Change, legacy: bool)
    requires Valid(t)
    ensures Valid(Step(t, c, legacy))
    ensures c.checked ==>
      |Step(t, c, legacy).running| == 1
      && Step(t, c, legacy).handle.Some?
      && Step(t, c, legacy).handle.value in Step(t, c, legacy).running
      && Step(t, c, legacy).running[Step(t, c, legacy).handle.value] == Period(c.setting)
    ensures !c.checked ==> Step(t, c, legacy).running == map[]
  {
    var r := Step(t, c, legacy);
    if c.checked {
      assert r.running == map[t.next := Period(c.setting)];
      assert r.running.Keys == {t.next};
    }
  }

  /**
   * From the loaded page, any sequence of settings changes leaves at most one
   * timer running, and when the last change enabled auto sync, exactly one,
   * with the last interval.
   */
  lemma {:induction false} AtMostOneTimer(t: Timers, changes: seq<Change>, legacy: bool)
    requires Valid(t)
    ensures Valid(ApplyAll(t, changes, legacy))
    ensures forall a, b :: a in ApplyAll(t, changes, legacy).running && b in ApplyAll(t, changes, legacy).running ==> a == b
    ensures changes != [] && changes[|changes| - 1].checked ==>
      |ApplyAll(t, changes, legacy).running| == 1
      && ApplyAll(t, changes, legacy).handle.Some?
      && ApplyAll(t, changes, legacy).running[ApplyAll(t, changes, legacy).handle.value]
         == Period(changes[|changes| - 1].setting)
    ensures changes != [] && !changes[|changes| - 1].checked ==> ApplyAll(t, changes, legacy).running == map[]
    decreases changes
  {
    if changes != [] {
      var next := Step(t, changes[0], legacy);
      StepSettles(t, changes[0], legacy);
      AtMostOneTimer(next, changes[1..], legacy);
      if changes[1..] == [] {
        assert ApplyAll(t, changes, legacy) == next;
      } else {
        assert changes[|changes| - 1] == changes[1..][|changes[1..]| - 1];
      }
    }
  }
}
