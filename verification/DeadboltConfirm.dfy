/**
  The confirm loop of one deadbolt operation, after its command was acknowledged: settle, then
  read the sensor until it shows the wanted state or the deadline has passed.
*/
module DeadboltConfirm {
  import opened Basics
  import opened Engine
  import opened EngineBolt

  /** One status request: the sensor's state or an error, how long it took, how late the next pause woke. */
  datatype Reading = Reading(unlocked: Option<bool>, took: real, late: real)

  predicate Timely(r: Reading) {
    r.took >= 0.0 && r.late >= 0.0
  }

  /** Readings that a loop with these timings can need at most. */
  function MostReadings(cfg: Config): int
    requires cfg.poll > 0.0
  {
    Ceiling(cfg.confirm / cfg.poll) + 1
  }

  /** n early readings leave room for one more. */
  lemma RoomForOneMore(cfg: Config, n: nat)
    requires ValidConfig(cfg) && cfg.poll > 0.0
    requires n > 0 ==> Pauses(cfg, n - 1) < cfg.confirm
    ensures n < MostReadings(cfg)
  {
    if n > 0 {
      PausesAre(cfg, n - 1);
      QuotientAbove(n - 1, cfg.poll, cfg.confirm);
    } else {
      PausesAre(cfg, 0);
      QuotientAbove(0, cfg.poll, cfg.confirm);
    }
  }

  /** When reading k has been checked, counted from the start of the deadline timer. */
  function CheckedAt(cfg: Config, started: real, script: seq<Reading>, k: nat): real
    requires k < |script|
  {
    (if k == 0 then started else CheckedAt(cfg, started, script, k - 1) + cfg.poll + script[k - 1].late)
    + script[k].took
  }

  /** One pause and one request further. */
  lemma NextCheck(cfg: Config, started: real, script: seq<Reading>, k: nat)
    requires k < |script|
    ensures Pauses(cfg, k + 1) == Pauses(cfg, k) + cfg.poll
    ensures CheckedAt(cfg, started, script, k) == script[k].took +
              if k == 0 then started else CheckedAt(cfg, started, script, k - 1) + cfg.poll + script[k - 1].late
  {
  }

  /**
    Returns the first reading that shows the wanted state, fails, or is checked at or after the
    deadline: every earlier one showed the other state before the deadline.  It returns when that
    reading is checked, at most one pause and one request after the deadline.
  */
  method Confirm(cfg: Config, open: bool, acknowledged: real, lateSettle: real, script: seq<Reading>)
    returns (result: Option<bool>, readings: nat, now: real)
    requires ValidConfig(cfg) && cfg.poll > 0.0 && lateSettle >= 0.0
    requires |script| >= MostReadings(cfg) && forall k | 0 <= k < |script| :: Timely(script[k])
    ensures 1 <= readings <= MostReadings(cfg)
    ensures result == script[readings - 1].unlocked
    ensures var started := acknowledged + cfg.settle + lateSettle;
            && now == CheckedAt(cfg, started, script, readings - 1) >= started + Pauses(cfg, readings - 1)
            && (readings > 1 ==> Pauses(cfg, readings - 2) < cfg.confirm)
            && (forall k | 0 <= k < readings - 1 ::
                  script[k].unlocked == Some(!open) && CheckedAt(cfg, started, script, k) < started + cfg.confirm)
            && (result == Some(!open) ==> now >= started + cfg.confirm)
            && (if readings == 1 then now == started + script[0].took
                else now < started + cfg.confirm + cfg.poll + script[readings - 2].late + script[readings - 1].took)
  {
    hide MostReadings, Pauses, CheckedAt;
    PausesAre(cfg, 0);
    now := acknowledged + cfg.settle + lateSettle;
    var deadline := now + cfg.confirm;
    ghost var started := now;
    readings := 0;
    while true
      invariant started == acknowledged + cfg.settle + lateSettle && deadline == started + cfg.confirm
      invariant readings <= |script| && now >= started + Pauses(cfg, readings)
      invariant readings > 0 ==> Pauses(cfg, readings - 1) < cfg.confirm
      invariant now == if readings == 0 then started
                       else CheckedAt(cfg, started, script, readings - 1) + cfg.poll + script[readings - 1].late
      invariant forall k | 0 <= k < readings ::
                  script[k].unlocked == Some(!open) && CheckedAt(cfg, started, script, k) < deadline
      decreases MostReadings(cfg) - readings
    {
      RoomForOneMore(cfg, readings);
      NextCheck(cfg, started, script, readings);
      var status := script[readings];
      now := now + status.took;
      readings := readings + 1;
      if status.unlocked.None? || status.unlocked == Some(open) || now >= deadline {
        return status.unlocked, readings, now;
      }
      assert status.unlocked.value == !open;
      now := now + cfg.poll + status.late;
    }
  }
}
