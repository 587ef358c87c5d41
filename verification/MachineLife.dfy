/** What each thing that happens to a machine does to what it pays for
    (crates/api/src/machines.rs): its compute only while it runs, and from where; its disk for as
    long as it exists. */
module MachineLife {
  import opened Prelude
  import opened BudgetTables
  import opened Metering
  import opened MeterRuns
  import opened SweptMachines

  /** A meter that pays, and from where; none with a column missing. */
  function Paying(hourly: Option<nat>, origin: Option<nat>, cursor: Option<nat>): Option<Meter>
  {
    match (hourly, origin, cursor)
    case (Some(h), Some(o), Some(c)) => Some(Meter(h, o, c))
    case _ => None
  }

  function Kept(row: MachineRow, kind: Kind): Option<Meter>
  {
    if Pays(row, kind) then Paying(ColumnsOf(row, kind).hourly, ColumnsOf(row, kind).startedAt, ColumnsOf(row, kind).cursor) else None
  }

  lemma KeptIsTheMeter(row: MachineRow, kind: Kind)
    ensures MeterOf(row, kind) == Kept(row, kind)
  {
  }

  /** Compute after an event: paid from its stamp on, and from a new origin if the machine was
      built, restarted or found running; no longer paid once it is drained, suspended or gone. */
  lemma ComputeAfterAnEvent(row: MachineRow, event: Event, stamp: nat)
    ensures MeterOf(Lived(row, event, stamp), Compute) ==
      match event
      case Built(state, hourly, _) => if state == Running then Paying(hourly, Some(stamp), Some(stamp)) else None
      case Operated(state) => if state == Running then Paying(row.compute.hourly, row.compute.startedAt, Some(stamp)) else None
      case Resized(hourly, _) => if row.state == Running then Paying(hourly, row.compute.startedAt, row.compute.cursor) else None
      case Restarted(state) => if state == Running then Paying(row.compute.hourly, Some(stamp), Some(stamp)) else None
      case FoundRunning =>
        if row.state == Deallocated then Paying(row.compute.hourly, Some(stamp), Some(stamp)) else Kept(row, Compute)
      case ContainerRan => Paying(row.compute.hourly, row.compute.startedAt, row.compute.cursor)
      case Released => if row.state == Provisioning then None else Kept(row, Compute)
      case _ => None
  {
  }

  /** The disk after an event: paid as before, through every stop and start, until the machine is
      gone; anew once it is built again. */
  lemma DiskAfterAnEvent(row: MachineRow, event: Event, stamp: nat)
    requires row.state != Destroyed
    ensures MeterOf(Lived(row, event, stamp), Storage) ==
      match event
      case Built(state, _, hourly) => if state != Destroyed then Paying(hourly, Some(stamp), Some(stamp)) else None
      case Resized(_, hourly) => Paying(hourly, row.storage.startedAt, row.storage.cursor)
      case Operated(state) => if state != Destroyed then Kept(row, Storage) else None
      case Restarted(state) => if state != Destroyed then Kept(row, Storage) else None
      case Wrecked => None
      case Lost => None
      case Released => if row.state == Provisioning then None else Kept(row, Storage)
      case _ => Kept(row, Storage)
  {
  }

  /** What starts and stops compute: each puts its cursor at the stamp, even one that stops it, so
      that what is paid for next begins there. */
  predicate PutsCursor(row: MachineRow, event: Event)
  {
    || event.Built? || event.Operated? || event.Restarted? || event.Drained?
    || (event.Suspended? && row.state == Running) || (event.FoundRunning? && row.state == Deallocated)
  }

  /** What counts compute from a new origin. */
  predicate PutsOrigin(row: MachineRow, event: Event)
  {
    event.Built? || event.Restarted? || (event.FoundRunning? && row.state == Deallocated)
  }

  predicate Ends(row: MachineRow, event: Event)
  {
    event.Wrecked? || (event.Lost? && row.state != Destroyed) || (event.Released? && row.state == Provisioning)
  }

  /** The state, cursors and origins after an event: the disk's are put only by building. */
  lemma TimesAfterAnEvent(row: MachineRow, event: Event, stamp: nat)
    ensures var after := Lived(row, event, stamp);
      && after.compute.cursor == (if PutsCursor(row, event) then Some(stamp) else row.compute.cursor)
      && after.compute.startedAt == (if PutsOrigin(row, event) then Some(stamp) else row.compute.startedAt)
      && after.storage.cursor == (if event.Built? then Some(stamp) else row.storage.cursor)
      && after.storage.startedAt == (if event.Built? then Some(stamp) else row.storage.startedAt)
      && (Ends(row, event) ==> after.state == Destroyed)
      && (event.Built? || event.Operated? || event.Restarted? ==> after.state == event.state)
      && (event.Drained? || (event.Suspended? && row.state == Running) ==> after.state == Deallocated)
      && (event.ContainerRan? || (event.FoundRunning? && row.state == Deallocated) ==> after.state == Running)
      && (event.Reset? ==> after.state == Provisioning)
  {
  }

  predicate Unpaid(row: MachineRow) { row.compute.hourly == None && row.storage.hourly == None }

  function LivedThrough(row: MachineRow, events: seq<(Event, nat)>): MachineRow
  {
    if events == [] then row
    else
      var (event, stamp) := events[|events| - 1];
      Lived(LivedThrough(row, events[..|events| - 1]), event, stamp)
  }

  /** Building and resizing are what set prices. */
  predicate NeverPriced(events: seq<(Event, nat)>)
  {
    forall i :: 0 <= i < |events| ==> !events[i].0.Built? && !events[i].0.Resized?
  }

  /** A machine that is gone has no price, and whatever happens to it afterwards nothing is paid for
      it until it is built or priced anew; so no sweep touches it. */
  lemma {:induction false} NothingPaidOnceGone(row: MachineRow, gone: Event, stamp: nat, events: seq<(Event, nat)>, kind: Kind)
    requires Ends(row, gone) && NeverPriced(events)
    ensures Lived(row, gone, stamp).state == Destroyed
    ensures Unpaid(LivedThrough(Lived(row, gone, stamp), events))
    ensures MeterOf(LivedThrough(Lived(row, gone, stamp), events), kind).None?
  {
    if events != [] {
      assert NeverPriced(events[..|events| - 1]);
      NothingPaidOnceGone(row, gone, stamp, events[..|events| - 1], kind);
    }
  }
}
