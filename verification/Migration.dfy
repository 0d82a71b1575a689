/**
  Promoting a staged CPython checkout over a bind-mounted one: the file-system table loses one line, the
  overlay is unmounted, and two directories are renamed, with a compensation for every step that fails.
 */
module Migration {
  import opened Collections
  import opened Types
  import opened Text

  // ----- Removing the bind from the file-system table -----

  predicate IsBind(line: string, guest: string, shared: string) {
    var fields := Fields(line);
    && |fields| >= 4
    && !("#" <= fields[0])
    && fields[0] == guest && fields[1] == shared && fields[2] == "none" && "bind" in SplitOn(fields[3], ',')
  }

  type LineTest = string -> bool

  function BindFrom(guest: string, shared: string): LineTest {
    line => IsBind(line, guest, shared)
  }

  function Matches(lines: seq<string>, test: LineTest): nat {
    if lines == [] then 0 else Matches(lines[..|lines| - 1], test) + if test(lines[|lines| - 1]) then 1 else 0
  }

  function Not(test: LineTest): LineTest { line => !test(line) }

  /** Exactly one line matches, and it is this one. */
  ghost predicate OnlyMatch(lines: seq<string>, test: LineTest, at: int) {
    0 <= at < |lines| && forall i :: 0 <= i < |lines| ==> (test(lines[i]) <==> i == at)
  }

  ghost function Without(lines: seq<string>, at: int): string
    requires 0 <= at < |lines|
  {
    Concat(lines[..at]) + Concat(lines[at + 1..])
  }

  lemma {:induction false} NoMatch(lines: seq<string>, test: LineTest)
    requires forall i :: 0 <= i < |lines| ==> !test(lines[i])
    ensures Matches(lines, test) == 0 && Filter(Not(test), lines) == lines
  {
    if lines == [] {
    } else {
      NoMatch(lines[..|lines| - 1], test);
    }
  }

  lemma {:induction false} OneMatch(lines: seq<string>, test: LineTest, at: int)
    requires OnlyMatch(lines, test, at)
    ensures Matches(lines, test) == 1 && Filter(Not(test), lines) == lines[..at] + lines[at + 1..]
  {
    var front := lines[..|lines| - 1];
    if at == |lines| - 1 {
      NoMatch(front, test);
    } else {
      assert OnlyMatch(front, test, at) by {
        assert forall i :: 0 <= i < |front| ==> front[i] == lines[i];
      }
      OneMatch(front, test, at);
      assert lines[..at] + lines[at + 1..] == (front[..at] + front[at + 1..]) + [lines[|lines| - 1]];
    }
  }

  lemma {:induction false} MatchFound(lines: seq<string>, test: LineTest) returns (at: nat)
    requires Matches(lines, test) > 0
    ensures at < |lines| && test(lines[at])
    ensures Matches(lines, test) == 1 ==> OnlyMatch(lines, test, at)
  {
    var front := lines[..|lines| - 1];
    if test(lines[|lines| - 1]) {
      at := |lines| - 1;
      if Matches(front, test) > 0 {
        var _ := MatchFound(front, test);
      } else {
        NoneMatch(front, test);
      }
    } else {
      at := MatchFound(front, test);
    }
  }

  lemma {:induction false} NoneMatch(lines: seq<string>, test: LineTest)
    requires Matches(lines, test) == 0
    ensures forall i :: 0 <= i < |lines| ==> !test(lines[i])
  {
    if lines == [] {
    } else {
      NoneMatch(lines[..|lines| - 1], test);
    }
  }

  /** The loop over the lines: what is kept, and how many lines were not. */
  method Scan(lines: seq<string>, test: LineTest) returns (kept: seq<string>, removed: nat)
    ensures removed == 1 <==> exists at :: OnlyMatch(lines, test, at)
    ensures forall at :: OnlyMatch(lines, test, at) ==> kept == lines[..at] + lines[at + 1..]
  {
    kept, removed := [], 0;
    for i := 0 to |lines|
      invariant kept == Filter(Not(test), lines[..i]) && removed == Matches(lines[..i], test)
    {
      assert lines[..i + 1][..i] == lines[..i];
      if test(lines[i]) {
        removed := removed + 1;
      } else {
        kept := kept + [lines[i]];
      }
    }
    assert lines[..|lines|] == lines;
    forall at | OnlyMatch(lines, test, at) ensures removed == 1 && kept == lines[..at] + lines[at + 1..] {
      OneMatch(lines, test, at);
    }
    if removed == 1 {
      var at := MatchFound(lines, test);
    }
  }

  lemma Reassembled(contents: string, at: nat)
    requires at < |SplitLines(contents)|
    ensures var lines := SplitLines(contents);
            && Concat(lines[..at] + lines[at + 1..]) == Without(lines, at)
            && contents == Concat(lines[..at]) + lines[at] + Concat(lines[at + 1..])
  {
    var lines := SplitLines(contents);
    LinesConcat(contents);
    ConcatAppends(lines[..at], [lines[at]]);
    ConcatAppends(lines[..at] + [lines[at]], lines[at + 1..]);
    assert lines == lines[..at] + [lines[at]] + lines[at + 1..];
    assert Concat([lines[at]]) == lines[at];
    ConcatAppends(lines[..at], lines[at + 1..]);
  }

  /**
    The table without the requested bind. It fails unless exactly one line is that bind, and otherwise
    gives back every other byte: put back in its place, the missing line completes the original.
   */
  method WithoutSourceBind(contents: string, guest: string, shared: string) returns (r: Option<string>)
    ensures r.Some? <==> exists at :: OnlyMatch(SplitLines(contents), BindFrom(guest, shared), at)
    ensures forall at :: OnlyMatch(SplitLines(contents), BindFrom(guest, shared), at) ==>
      && r == Option.Some(Without(SplitLines(contents), at))
      && contents ==
         Concat(SplitLines(contents)[..at]) + SplitLines(contents)[at] + Concat(SplitLines(contents)[at + 1..])
  {
    var lines, test := SplitLines(contents), BindFrom(guest, shared);
    var kept, removed := Scan(lines, test);
    forall at | OnlyMatch(lines, test, at)
      ensures Concat(kept) == Without(lines, at)
      ensures contents == Concat(lines[..at]) + lines[at] + Concat(lines[at + 1..])
    {
      Reassembled(contents, at);
    }
    if removed != 1 {
      return Option.None;
    }
    r := Option.Some(Concat(kept));
  }

  /** `table` is `contents` without its one matching line. */
  ghost predicate RemovesBind(contents: string, guest: string, shared: string, table: string) {
    exists at ::
      OnlyMatch(SplitLines(contents), BindFrom(guest, shared), at) && table == Without(SplitLines(contents), at)
  }

  /** The removed line is not empty, so the table really changes. */
  lemma BindShortens(contents: string, guest: string, shared: string, table: string)
    requires RemovesBind(contents, guest, shared, table)
    ensures |table| < |contents|
  {
    var at :|
      OnlyMatch(SplitLines(contents), BindFrom(guest, shared), at) && table == Without(SplitLines(contents), at);
    Reassembled(contents, at);
    assert IsBind(SplitLines(contents)[at], guest, shared);
    assert Fields("") == [];
  }

  // ----- The promotion -----

  /** A checkout: its commit, and whether its work tree is clean. */
  datatype Tree = Tree(revision: string, clean: bool)

  datatype Record = Record(guestSource: string, sourceRevision: string, hostRevision: string, promoted: bool)

  /** The state that must never be left half changed. A tree can be at any of the three paths. */
  datatype Layout = Layout(
    fstab: string, overlay: bool, source: Option<Tree>, staged: Option<Tree>, backup: Option<Tree>, guest: Tree)

  /** Every step that can fail, each without effect. */
  datatype Step =
    | Preflight | SaveBackup | SavePlan | Reread | WriteTable
    | Unmount | RestoreTable
    | Recheck | MoveHost | MoveStaged | MoveHostBack
    | Remount | RestoreTableLate
    | FinalCheck | WriteRecord

  const COMPENSATIONS: set<Step> := {RestoreTable, MoveHostBack, Remount, RestoreTableLate}

  function AtMostOnce(found: bool): nat { if found then 1 else 0 }

  /** How many copies of a tree there are. */
  function Copies(l: Layout, t: Tree): nat {
    AtMostOnce(l.source == Option.Some(t)) + AtMostOnce(l.staged == Option.Some(t)) +
    AtMostOnce(l.backup == Option.Some(t)) + AtMostOnce(l.guest == t)
  }

  predicate CleanAt(t: Option<Tree>, revision: string) {
    t.Some? && t.value.clean && t.value.revision == revision
  }

  /** What the checks before the first change establish. */
  predicate Ready(l: Layout, r: Record, pin: string) {
    && !r.promoted && l.overlay && l.source.Some? && pin == r.sourceRevision
    && CleanAt(Option.Some(l.guest), pin) && CleanAt(l.staged, pin) && l.backup.None?
  }

  /** Where a successful promotion leads. */
  function Promoted(l: Layout, table: string): Layout {
    Layout(table, false, l.staged, Option.None, l.source, l.guest)
  }

  /** Everything up to the first change of the layout succeeds. */
  ghost predicate Prepares(
    faults: set<Step>, l: Layout, r: Record, saved: Option<string>, shared: string, pin: string)
  {
    && {Preflight, SaveBackup, SavePlan, Reread} !! faults
    && Ready(l, r, pin) && (saved.Some? ==> saved.value == l.fstab)
    && exists at :: OnlyMatch(SplitLines(l.fstab), BindFrom(r.guestSource, shared), at)
  }

  /** The table is replaced and the overlay is gone. */
  predicate Unmounts(faults: set<Step>) {
    WriteTable !in faults && Unmount !in faults
  }

  predicate MovesHost(faults: set<Step>, l: Layout, r: Record) {
    Unmounts(faults) && Recheck !in faults && CleanAt(l.source, r.hostRevision) && MoveHost !in faults
  }

  /** The staged tree takes the place of the host tree. */
  predicate MovesBoth(faults: set<Step>, l: Layout, r: Record) {
    MovesHost(faults, l, r) && MoveStaged !in faults
  }

  // ----- Where the steps lead -----

  /** The trees after the renames, the second of which is undone by hand if it fails. */
  function Renamed(faults: set<Step>, l: Layout, r: Record): Layout {
    if !MovesHost(faults, l, r) then l
    else if MovesBoth(faults, l, r) then l.(source := l.staged, staged := Option.None, backup := l.source)
    else if MoveHostBack in faults then l.(source := Option.None, backup := l.source)
    else l
  }

  /** Bringing the overlay back needs its mount point, and the table is restored only after that. */
  function Remounted(faults: set<Step>, l: Layout, original: string): Layout {
    if Remount in faults || l.source.None? then l
    else if RestoreTableLate in faults then l.(overlay := true)
    else l.(overlay := true, fstab := original)
  }

  function Reached(faults: set<Step>, l: Layout, r: Record, table: string): Layout {
    if WriteTable in faults then l
    else if Unmount in faults then (if RestoreTable in faults then l.(fstab := table) else l)
    else
      var renamed := Renamed(faults, l.(fstab := table, overlay := false), r);
      if MovesBoth(faults, l, r) then renamed else Remounted(faults, renamed, l.fstab)
  }

  // ----- What holds wherever it ends -----

  /** Whatever fails, compensations included, no tree is lost and none is copied. */
  lemma TreesKept(faults: set<Step>, l: Layout, r: Record, table: string, t: Tree)
    requires l.backup.None?
    ensures Copies(Reached(faults, l, r, table), t) == Copies(l, t) && Reached(faults, l, r, table).guest == l.guest
  {
  }

  /** Exactly the faults after which the layout is neither the original nor the promoted one. */
  predicate Mixes(faults: set<Step>, l: Layout, r: Record) {
    || (WriteTable !in faults && Unmount in faults && RestoreTable in faults)
    || (Unmounts(faults) && !MovesBoth(faults, l, r) &&
        (Remount in faults || RestoreTableLate in faults || (MovesHost(faults, l, r) && MoveHostBack in faults)))
  }

  lemma MixedExactly(faults: set<Step>, l: Layout, r: Record, table: string, pin: string)
    requires Ready(l, r, pin) && table != l.fstab
    ensures Reached(faults, l, r, table) == Promoted(l, table) <==> MovesBoth(faults, l, r)
    ensures Reached(faults, l, r, table) in {l, Promoted(l, table)} <==> !Mixes(faults, l, r)
  {
  }

  /** As long as every compensation that is called for works, there is no third outcome. */
  lemma CompensationsSuffice(faults: set<Step>, l: Layout, r: Record, table: string, pin: string)
    requires Ready(l, r, pin) && table != l.fstab && faults !! COMPENSATIONS
    ensures Reached(faults, l, r, table) == if MovesBoth(faults, l, r) then Promoted(l, table) else l
  {
    assert RestoreTable in COMPENSATIONS && MoveHostBack in COMPENSATIONS;
    assert Remount in COMPENSATIONS && RestoreTableLate in COMPENSATIONS;
  }

  /** A single fault never mixes the layouts, provided the host tree is the recorded one. */
  lemma SingleFaultIsSafe(fault: Step, l: Layout, r: Record)
    requires CleanAt(l.source, r.hostRevision)
    ensures !Mixes({fault}, l, r)
  {
  }

  /** If the host tree turns out not to be the recorded one, one failing compensation is enough. */
  lemma ChangedHostTreeNeedsCompensation(fault: Step, l: Layout, r: Record)
    requires !CleanAt(l.source, r.hostRevision)
    ensures Mixes({fault}, l, r) <==> fault == Remount || fault == RestoreTableLate
  {
  }

  /** The run reports success: both trees moved, the result checked and the record written. */
  predicate Succeeds(faults: set<Step>, l: Layout, r: Record) {
    MovesBoth(faults, l, r) && FinalCheck !in faults && WriteRecord !in faults
  }

  /** How a promotion that got past its checks ends. */
  ghost predicate Settled(faults: set<Step>, l: Layout, r: Record, table: string, end: Layout, ok: bool) {
    && (end == Promoted(l, table) <==> MovesBoth(faults, l, r))
    && (end in {l, Promoted(l, table)} <==> !Mixes(faults, l, r))
    && (ok <==> Succeeds(faults, l, r))
  }

  lemma Settles(faults: set<Step>, l: Layout, r: Record, table: string, pin: string)
    requires Ready(l, r, pin) && table != l.fstab
    ensures Settled(faults, l, r, table, Reached(faults, l, r, table), Succeeds(faults, l, r))
    ensures MovesBoth(faults, l, r) ==> CleanAt(Reached(faults, l, r, table).source, pin)
  {
    MixedExactly(faults, l, r, table, pin);
  }

  // ----- A promoted layout without a record -----

  /** The layout can be promoted although the run fails, exactly if the last check or the last write fails. */
  lemma UnrecordedExactly(faults: set<Step>, l: Layout, r: Record, table: string, pin: string)
    requires Ready(l, r, pin) && table != l.fstab
    ensures Reached(faults, l, r, table) == Promoted(l, table) && !Succeeds(faults, l, r)
       <==> MovesBoth(faults, l, r) && (FinalCheck in faults || WriteRecord in faults)
  {
    MixedExactly(faults, l, r, table, pin);
  }

  /** A table whose only line is the bind. */
  function BindTable(guest: string, shared: string): string {
    Row([guest, shared, "none", "bind"]) + "\n"
  }

  lemma BindTableIsBind(guest: string, shared: string)
    requires Word(guest) && Word(shared) && guest[0] != '#'
    ensures IsBind(BindTable(guest, shared), guest, shared)
  {
    hide Row, Fields;
    RowFields([guest, shared, "none", "bind"]);
    FieldsSpace(Row([guest, shared, "none", "bind"]), '\n');
    SplitNowhere("bind", ',');
  }

  lemma BindTableIsLine(guest: string, shared: string)
    requires Word(guest) && Word(shared)
    ensures SplitLines(BindTable(guest, shared)) == [BindTable(guest, shared)]
  {
    hide Row, SplitLines;
    var words, table := [guest, shared, "none", "bind"], BindTable(guest, shared);
    RowUnbroken(words);
    assert table[..|table| - 1] == Row(words);
    OneLine(table);
  }

  lemma BindTableMatches(guest: string, shared: string)
    requires Word(guest) && Word(shared) && guest[0] != '#'
    ensures OnlyMatch(SplitLines(BindTable(guest, shared)), BindFrom(guest, shared), 0)
    ensures RemovesBind(BindTable(guest, shared), guest, shared, "")
  {
    hide BindTable, IsBind, SplitLines;
    BindTableIsBind(guest, shared);
    BindTableIsLine(guest, shared);
    assert Without(SplitLines(BindTable(guest, shared)), 0) == "";
  }

  /** On a machine that passes every check, the run moves both trees and then fails without recording it. */
  lemma UnrecordedExample(fault: Step, guest: string, shared: string)
    requires fault == FinalCheck || fault == WriteRecord
    requires Word(guest) && Word(shared) && guest[0] != '#'
    ensures var l := Layout(BindTable(guest, shared), true, Option.Some(Tree("host", true)),
                            Option.Some(Tree("pin", true)), Option.None, Tree("pin", true));
            var r := Record(guest, "pin", "host", false);
            && Prepares({fault}, l, r, Option.None, shared, "pin") && RemovesBind(l.fstab, guest, shared, "")
            && Reached({fault}, l, r, "") == Promoted(l, "") && !Succeeds({fault}, l, r)
  {
    hide BindTable;
    BindTableMatches(guest, shared);
  }

  /** Such a layout cannot be promoted again: whatever the record says, a later run fails its checks. */
  lemma PromotedIsRefused(
    faults: set<Step>, l: Layout, table: string, r: Record, saved: Option<string>, shared: string, pin: string)
    ensures !Prepares(faults, Promoted(l, table), r, saved, shared, pin)
  {
  }

  /** Nor can any other layout that a run has changed: the overlay is gone or the table is not the saved one. */
  lemma ChangedIsRefused(
    faults: set<Step>, l: Layout, r: Record, table: string, again: set<Step>, r': Record, shared: string, pin: string)
    requires l.overlay && table != l.fstab && Reached(faults, l, r, table) != l
    ensures !Prepares(again, Reached(faults, l, r, table), r', Option.Some(l.fstab), shared, pin)
  {
  }

  class Host {
    var fstab: string
    var overlay: bool
    var source: Option<Tree>
    var staged: Option<Tree>
    var backup: Option<Tree>
    var guest: Tree
    var record: Record
    var savedTable: Option<string>
    var plannedTable: Option<string>

    ghost function View(): Layout
      reads this
    {
      Layout(fstab, overlay, source, staged, backup, guest)
    }

    method MoveTrees(faults: set<Step>) returns (moved: bool)
      requires Unmounts(faults) && backup.None?
      modifies this`source, this`staged, this`backup
      ensures moved <==> MovesBoth(faults, old(View()), record)
      ensures View() == Renamed(faults, old(View()), record)
    {
      if Recheck in faults || !CleanAt(source, record.hostRevision) || MoveHost in faults {
        return false;
      }
      backup, source := source, Option.None;
      if MoveStaged in faults {
        if MoveHostBack !in faults {
          source, backup := backup, Option.None;
        }
        return false;
      }
      source, staged := staged, Option.None;
      moved := true;
    }

    method RestoreOverlay(faults: set<Step>, original: string)
      modifies this`overlay, this`fstab
      ensures View() == Remounted(faults, old(View()), original)
    {
      if Remount in faults || source.None? {
        return;
      }
      overlay := true;
      if RestoreTableLate in faults {
        return;
      }
      fstab := original;
    }

    /** The changes, with their compensations. */
    method Switch(faults: set<Step>, table: string) returns (moved: bool)
      requires backup.None?
      modifies this`fstab, this`overlay, this`source, this`staged, this`backup
      ensures View() == Reached(faults, old(View()), record, table)
      ensures moved <==> MovesBoth(faults, old(View()), record)
    {
      var original := fstab;
      if WriteTable in faults {
        return false;
      }
      fstab := table;
      if Unmount in faults {
        if RestoreTable !in faults {
          fstab := original;
        }
        return false;
      }
      overlay := false;
      moved := MoveTrees(faults);
      if !moved {
        RestoreOverlay(faults, original);
      }
    }

    /** The checks, and the two copies of the table kept beside the staged tree. */
    method Prepare(faults: set<Step>, shared: string, pin: string) returns (table: Option<string>)
      modifies this`savedTable, this`plannedTable
      ensures table.Some? <==> Prepares(faults, View(), record, old(savedTable), shared, pin)
      ensures table.Some? ==>
        && savedTable == Option.Some(fstab) && plannedTable == table
        && RemovesBind(fstab, record.guestSource, shared, table.value)
      ensures savedTable == old(savedTable) || (old(savedTable).None? && savedTable == Option.Some(fstab))
    {
      if Preflight in faults || record.promoted || !overlay || source.None? || pin != record.sourceRevision
         || !CleanAt(Option.Some(guest), pin) || !CleanAt(staged, pin) || backup.Some?
      {
        return Option.None;
      }
      table := WithoutSourceBind(fstab, record.guestSource, shared);
      if table.None? || (savedTable.Some? && savedTable.value != fstab) || SaveBackup in faults {
        return Option.None;
      }
      savedTable := Option.Some(fstab);
      if SavePlan in faults {
        return Option.None;
      }
      plannedTable := table;
      if Reread in faults {
        return Option.None;
      }
    }

    /**
      `promote` on a machine where the steps in `faults` fail. `shared` is the source path and `pin` the
      pinned revision of the repository.
     */
    method Promote(faults: set<Step>, shared: string, pin: string) returns (ok: bool)
      modifies this
      ensures forall t :: Copies(View(), t) == Copies(old(View()), t)
      ensures !Prepares(faults, old(View()), old(record), old(savedTable), shared, pin) ==>
        !ok && View() == old(View())
      ensures Prepares(faults, old(View()), old(record), old(savedTable), shared, pin) ==>
        && plannedTable.Some? && RemovesBind(old(fstab), old(record.guestSource), shared, plannedTable.value)
        && Settled(faults, old(View()), old(record), plannedTable.value, View(), ok)
        && View() == Reached(faults, old(View()), old(record), plannedTable.value)
        && savedTable == Option.Some(old(fstab))
      ensures record == old(record).(promoted := old(record).promoted || ok)
      ensures savedTable == old(savedTable) || (old(savedTable).None? && savedTable == Option.Some(old(fstab)))
    {
      ghost var l, r := View(), record;
      ok := false;
      var table := Prepare(faults, shared, pin);
      if table.None? {
        return;
      }
      BindShortens(l.fstab, r.guestSource, shared, table.value);
      forall t ensures Copies(Reached(faults, l, r, table.value), t) == Copies(l, t) {
        TreesKept(faults, l, r, table.value, t);
      }
      Settles(faults, l, r, table.value, pin);
      var moved := Switch(faults, table.value);
      if !moved || FinalCheck in faults || !CleanAt(source, pin) || WriteRecord in faults {
        return;
      }
      record := record.(promoted := true);
      ok := true;
    }

    /**
      Trying again after a run in which the steps in `faults` failed. Wherever that run ended, in its checks or
      in its changes, a second run without faults succeeds exactly if the layout is back where it was, the
      machine passes the checks and the host tree is the recorded one. Otherwise it changes nothing.
     */
    method PromoteTwice(faults: set<Step>, shared: string, pin: string)
      returns (first: bool, ghost between: Layout, second: bool)
      modifies this
      ensures second <==>
        && between == old(View()) && Prepares({}, old(View()), old(record), old(savedTable), shared, pin)
        && CleanAt(old(source), old(record.hostRevision))
      ensures second ==>
        && !first && record.promoted && plannedTable.Some? && View() == Promoted(old(View()), plannedTable.value)
        && RemovesBind(old(fstab), old(record.guestSource), shared, plannedTable.value)
      ensures !second ==> View() == between && (record.promoted <==> old(record.promoted) || first)
    {
      ghost var l, r := View(), record;
      first := Promote(faults, shared, pin);
      between := View();
      if Prepares(faults, l, r, old(savedTable), shared, pin) {
        ghost var table := plannedTable.value;
        BindShortens(l.fstab, r.guestSource, shared, table);
        if between != l {
          ChangedIsRefused(faults, l, r, table, {}, record, shared, pin);
        }
      }
      second := Promote({}, shared, pin);
    }
  }
}
