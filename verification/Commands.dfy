/**
 How the executor carries out what it has decided to do: it writes or removes a settings file, purges
 the swap, or runs a program, and says whether that succeeded.
 */
module Commands {

  import opened Wrappers

  datatype Command = Setting | SwapPurge | Program

  // The machine's memory figures, in kilobytes.
  datatype Figures = Figures(available: int, total: int, free: int)

  /** May the swap be emptied into memory? Only with half as much again to spare as is parked there. */
  predicate MayPurge(f: Figures) {
    var used := f.total - f.free;
    f.free <= f.total && f.total != 0 && (used == 0 || f.available >= used + used / 2)
  }

  // How everything a command may involve turns out; `None` are figures that cannot be read.
  datatype Effects = Effects(
    changed: bool, figures: Option<Figures>, tools: bool, swappedOff: bool, swappedOn: bool, inTime: bool, exited: bool)

  datatype Doing = Changes | SwapsOff | SwapsOn | Runs

  // Something done to the machine, and whether it succeeded.
  datatype Deed = Deed(what: Doing, ok: bool)

  predicate Purges(e: Effects) {
    e.figures.Some? && MayPurge(e.figures.value) && e.tools
  }

  /** What a command does to the machine, in order. */
  function Deeds(c: Command, e: Effects): seq<Deed> {
    match c
    case Setting => [Deed(Changes, e.changed)]
    case SwapPurge => if Purges(e) then [Deed(SwapsOff, e.swappedOff), Deed(SwapsOn, e.swappedOn)] else []
    case Program => [Deed(Runs, e.inTime && e.exited)]
  }

  /** Is the command reported as carried out? */
  predicate Succeeds(c: Command, e: Effects) {
    match c
    case Setting => e.changed
    case SwapPurge => Purges(e) && e.swappedOff && e.swappedOn
    case Program => e.inTime && e.exited
  }

  predicate AllWell(deeds: seq<Deed>) {
    forall i :: 0 <= i < |deeds| ==> deeds[i].ok
  }

  // Swap that is switched off is switched on again right afterwards, or at least that is tried.
  predicate Rearmed(deeds: seq<Deed>) {
    forall i :: 0 <= i < |deeds| && deeds[i].what == SwapsOff ==> i + 1 < |deeds| && deeds[i + 1].what == SwapsOn
  }

  /** The report is true: success means that something was done and all of it went well. */
  lemma SuccessIsTruthful(c: Command, e: Effects)
    ensures Succeeds(c, e) <==> Deeds(c, e) != [] && AllWell(Deeds(c, e))
    ensures Rearmed(Deeds(c, e))
  {
    var deeds := Deeds(c, e);
    if c == SwapPurge && Purges(e) { assert deeds[0].ok == e.swappedOff && deeds[1].ok == e.swappedOn; }
    if c == Setting { assert deeds[0].ok == e.changed; }
    if c == Program { assert deeds[0].ok == (e.inTime && e.exited); }
  }

  lemma RearmedTogether(a: seq<Deed>, b: seq<Deed>)
    requires Rearmed(a) && Rearmed(b)
    ensures Rearmed(a + b)
  {
    forall i | 0 <= i < |a + b| && (a + b)[i].what == SwapsOff
      ensures i + 1 < |a + b| && (a + b)[i + 1].what == SwapsOn
    {
      if i < |a| { assert a[i].what == SwapsOff; } else { assert b[i - |a|].what == SwapsOff; }
    }
  }

  /**
   The guard, in whole kilobytes: there is swap, the figures agree with each other, and what is available is at least
   one and a half times what is parked, rounded down.
   */
  lemma MayPurgeExactlyWhen(f: Figures)
    ensures var parked := f.total - f.free;
      MayPurge(f) <==>
        f.total != 0 && parked >= 0 && (parked == 0 || 2 * f.available >= 3 * parked - parked % 2)
  {
  }
}
