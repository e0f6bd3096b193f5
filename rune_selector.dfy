/**
 * The rune chooser: a toggled current rune, a list of runes to read together
 * whose ids stay pairwise distinct, the two modes (one rune or a list), the
 * guards in front of the two interpretation callbacks, the displayed Elder
 * Futhark runes and the plain-text copy of the list.
 */
module RuneSelector {
  import opened Wrappers
  import opened Text
  import opened Sorting

  /** A rune of the meanings table; only the fields the chooser reads are kept. */
  datatype Runa = Runa(id: string, nombre: string, unicode: string, orden: int)

  datatype Mode = Individual | Multiple

  predicate HasId(l: seq<Runa>, id: string)
  {
    exists i :: 0 <= i < |l| && l[i].id == id
  }

  predicate DistinctIds(l: seq<Runa>)
  {
    forall i, j :: 0 <= i < j < |l| ==> l[i].id != l[j].id
  }

  /** Toggle: clicking the current rune deselects it, clicking any other selects that one. */
  function SelectToggle(selected: Option<Runa>, runa: Runa): (r: Option<Runa>)
    ensures r.None? <==> selected.Some? && selected.value.id == runa.id
    ensures r.Some? ==> r.value == runa
  {
    if selected.Some? && selected.value.id == runa.id then None else Some(runa)
  }

  /**
   * Adds the current rune at the end of the list unless nothing is selected or
   * a rune with its id is already listed.
   */
  function AddToList(selected: Option<Runa>, list: seq<Runa>): (r: seq<Runa>)
    ensures |list| <= |r| <= |list| + 1 && r[..|list|] == list
    ensures selected.None? ==> r == list
    ensures selected.Some? ==> HasId(r, selected.value.id)
    ensures selected.Some? && HasId(list, selected.value.id) ==> r == list
    ensures selected.Some? && !HasId(list, selected.value.id) ==> r[|list|] == selected.value
    ensures DistinctIds(list) ==> DistinctIds(r)
  {
    if selected.Some? && !HasId(list, selected.value.id) then
      var r := list + [selected.value];
      assert r[|list|].id == selected.value.id;
      r
    else list
  }

  function IdIsNot(id: string): Runa -> bool
  {
    (x: Runa) => x.id != id
  }

  /** Removes every listed rune with the given id, keeping the others in order. */
  function RemoveId(list: seq<Runa>, id: string): (r: seq<Runa>)
    ensures !HasId(r, id)
    ensures forall x :: x in r <==> x in list && x.id != id
    ensures DistinctIds(list) ==> DistinctIds(r)
  {
    var r := Filter(list, IdIsNot(id));
    forall x ensures x in r <==> x in list && x.id != id {
      FilterMembership(list, IdIsNot(id), x);
    }
    if DistinctIds(list) then FilterDistinct(list, IdIsNot(id)); r else r
  }

  lemma {:induction false} FilterDistinct(l: seq<Runa>, p: Runa -> bool)
    requires DistinctIds(l)
    ensures DistinctIds(Filter(l, p))
  {
    if l != [] {
      var rest := Filter(l[1..], p);
      FilterConcat([l[0]], l[1..], p);
      assert l == [l[0]] + l[1..];
      FilterDistinct(l[1..], p);
      forall i | 0 <= i < |rest| ensures rest[i].id != l[0].id {
        FilterMembership(l[1..], p, rest[i]);
        var j :| 0 <= j < |l[1..]| && l[1..][j] == rest[i];
        assert l[j + 1] == rest[i];
      }
    }
  }

  /** Drops the last listed rune; an empty list stays empty. */
  function DropLast(list: seq<Runa>): (r: seq<Runa>)
    ensures |list| > 0 ==> r + [list[|list| - 1]] == list
    ensures |list| == 0 ==> r == []
    ensures DistinctIds(list) ==> DistinctIds(r)
  {
    if |list| == 0 then [] else list[..|list| - 1]
  }

  /** Adding a new rune and undoing gives the list back. */
  lemma AddThenDrop(selected: Option<Runa>, list: seq<Runa>)
    requires selected.Some? && !HasId(list, selected.value.id)
    ensures DropLast(AddToList(selected, list)) == list
  {
  }

  /** The chooser's state: the current rune, the list, the mode. */
  datatype RunaState = RunaState(selected: Option<Runa>, list: seq<Runa>, mode: Mode)

  /** Mounted with the default mode, nothing selected and an empty list. */
  const Mounted: RunaState := RunaState(None, [], Multiple)

  datatype RuneEvent =
    | RuneClicked(runa: Runa)
    | AddClicked
    | RemoveClicked(id: string)
    | UndoClicked
    | ClearClicked
    | MultipleChosen
    | IndividualChosen

  function Apply(s: RunaState, e: RuneEvent): RunaState
  {
    match e
    case RuneClicked(runa) => s.(selected := SelectToggle(s.selected, runa))
    case AddClicked => s.(list := AddToList(s.selected, s.list))
    case RemoveClicked(id) => s.(list := RemoveId(s.list, id))
    case UndoClicked => s.(list := DropLast(s.list))
    case ClearClicked => s.(list := [], selected := None)
    case MultipleChosen => s.(mode := Multiple, selected := None)
    case IndividualChosen => s.(mode := Individual, list := [])
  }

  /**
   * Which buttons are on screen: the add button only in list mode (disabled
   * without a current rune); remove, undo and clear only in list mode with a
   * non-empty list; remove only for a listed id.
   */
  predicate Enabled(s: RunaState, e: RuneEvent)
  {
    match e
    case AddClicked => s.mode == Multiple && s.selected.Some?
    case RemoveClicked(id) => s.mode == Multiple && HasId(s.list, id)
    case UndoClicked => s.mode == Multiple && |s.list| > 0
    case ClearClicked => s.mode == Multiple && |s.list| > 0
    case _ => true
  }

  function Run(s: RunaState, events: seq<RuneEvent>): RunaState
    decreases |events|
  {
    if events == [] then s else Run(Apply(s, events[0]), events[1..])
  }

  predicate AllEnabled(s: RunaState, events: seq<RuneEvent>)
    decreases |events|
  {
    events == [] || (Enabled(s, events[0]) && AllEnabled(Apply(s, events[0]), events[1..]))
  }

  /** The list's ids are distinct, and the one-rune mode shows no list. */
  predicate Valid(s: RunaState)
  {
    DistinctIds(s.list) && (s.mode == Individual ==> s.list == [])
  }

  /** Every handler keeps the listed ids distinct, whether or not its button is shown. */
  lemma ApplyKeepsDistinct(s: RunaState, e: RuneEvent)
    requires DistinctIds(s.list)
    ensures DistinctIds(Apply(s, e).list)
  {
  }

  lemma ApplyValid(s: RunaState, e: RuneEvent)
    requires Valid(s) && Enabled(s, e)
    ensures Valid(Apply(s, e))
  {
  }

  /** From mounting on, clicking only buttons that are on screen keeps the chooser valid. */
  lemma {:induction false} RunValid(s: RunaState, events: seq<RuneEvent>)
    requires Valid(s) && AllEnabled(s, events)
    ensures Valid(Run(s, events))
    decreases |events|
  {
    if events != [] {
      ApplyValid(s, events[0]);
      RunValid(Apply(s, events[0]), events[1..]);
    }
  }

  /** The list handed to the list callback: only a non-empty list is sent. */
  function ListCallback(s: RunaState): (r: Option<seq<Runa>>)
    ensures r.Some? <==> |s.list| > 0
    ensures r.Some? ==> r.value == s.list
  {
    if |s.list| > 0 then Some(s.list) else None
  }

  /** The rune handed to the one-rune callback: only a selected rune is sent. */
  function IndividualCallback(s: RunaState): (r: Option<Runa>)
    ensures r.Some? <==> s.selected.Some?
    ensures r.Some? ==> r.value == s.selected.value
  {
    s.selected
  }

  function Orden(r: Runa): int { r.orden }

  function InElderFuthark(r: Runa): bool { 1 <= r.orden <= 24 }

  /**
   * The runes offered on screen: those of the table with `orden` in 1..24,
   * sorted by `orden` (stably, so equal keys keep table order).
   */
  function OrderedRunes(table: seq<Runa>): (r: seq<Runa>)
    ensures SortedBy(r, Orden)
    ensures forall x :: x in r <==> x in table && 1 <= x.orden <= 24
    ensures multiset(r) == multiset(Filter(table, InElderFuthark))
  {
    SortFilterMembers(table, InElderFuthark, Orden);
    SortByPermutation(Filter(table, InElderFuthark), Orden);
    SortBy(Filter(table, InElderFuthark), Orden)
  }

  /** The copy line of the `i`-th listed rune, counted from 0. */
  function CopyLine(i: int, r: Runa): string
  {
    IntToString(i + 1) + ". " + r.nombre + " (" + r.unicode + ")"
  }

  function CopyLines(list: seq<Runa>): (r: seq<string>)
    ensures |r| == |list|
  {
    seq(|list|, i requires 0 <= i < |list| => CopyLine(i, list[i]))
  }

  /** The clipboard text: one numbered line per listed rune, joined by newlines. */
  function CopyText(list: seq<Runa>): string
  {
    Join(CopyLines(list), '\n')
  }

  /**
   * Read back line by line, the copied text has one line per listed rune, in
   * list order, numbered from 1.
   */
  lemma {:induction false} CopyTextLines(list: seq<Runa>)
    requires |list| >= 1
    requires forall i :: 0 <= i < |list| ==> '\n' !in list[i].nombre && '\n' !in list[i].unicode
    ensures Split(CopyText(list), '\n') == CopyLines(list)
    ensures forall i :: 0 <= i < |list| ==> Split(CopyText(list), '\n')[i] == CopyLine(i, list[i])
  {
    var lines := CopyLines(list);
    forall i | 0 <= i < |lines| ensures '\n' !in lines[i] {
      var d := IntToString(i + 1);
      assert forall j :: 0 <= j < |d| ==> d[j] != '\n';
      assert lines[i] == d + ". " + list[i].nombre + " (" + list[i].unicode + ")";
    }
    SplitJoin(lines, '\n');
  }

  /** The chooser as the component holds it: three state fields updated by its handlers. */
  class RunaSelector {
    var selectedRuna: Option<Runa>
    var selectedRunasList: seq<Runa>
    var mode: Mode

    function State(): RunaState
      reads this
    {
      RunaState(selectedRuna, selectedRunasList, mode)
    }

    constructor()
      ensures State() == Mounted
    {
      selectedRuna := None;
      selectedRunasList := [];
      mode := Multiple;
    }

    method HandleSelectRuna(runa: Runa)
      modifies this
      ensures State() == Apply(old(State()), RuneClicked(runa))
    {
      if selectedRuna.Some? && selectedRuna.value.id == runa.id {
        selectedRuna := None;
      } else {
        selectedRuna := Some(runa);
      }
    }

    method HandleAddRunaToList()
      modifies this
      ensures State() == Apply(old(State()), AddClicked)
    {
      if selectedRuna.Some? {
        var present := false;
        var i := 0;
        while i < |selectedRunasList|
          invariant 0 <= i <= |selectedRunasList|
          invariant present <==> HasId(selectedRunasList[..i], selectedRuna.value.id)
        {
          if selectedRunasList[i].id == selectedRuna.value.id {
            present := true;
          }
          assert selectedRunasList[..i + 1] == selectedRunasList[..i] + [selectedRunasList[i]];
          i := i + 1;
        }
        assert selectedRunasList[..i] == selectedRunasList;
        if present {
          return;
        }
        selectedRunasList := selectedRunasList + [selectedRuna.value];
      }
    }

    method HandleRemoveRunaFromList(idRuna: string)
      modifies this
      ensures State() == Apply(old(State()), RemoveClicked(idRuna))
    {
      selectedRunasList := RemoveId(selectedRunasList, idRuna);
    }

    method HandleUndoLastRuna()
      modifies this
      ensures State() == Apply(old(State()), UndoClicked)
    {
      selectedRunasList := DropLast(selectedRunasList);
    }

    method HandleClearRunasList()
      modifies this
      ensures State() == Apply(old(State()), ClearClicked)
    {
      selectedRunasList := [];
      selectedRuna := None;
    }

    method ChooseMultiple()
      modifies this
      ensures State() == Apply(old(State()), MultipleChosen)
    {
      mode := Multiple;
      selectedRuna := None;
    }

    method ChooseIndividual()
      modifies this
      ensures State() == Apply(old(State()), IndividualChosen)
    {
      mode := Individual;
      selectedRunasList := [];
    }

    /** The argument of the list callback, when the guard lets it through. */
    method HandleInterpretSelectedRunasList() returns (sent: Option<seq<Runa>>)
      ensures sent == ListCallback(State())
    {
      if |selectedRunasList| > 0 {
        sent := Some(selectedRunasList);
      } else {
        sent := None;
      }
    }

    /** The argument of the one-rune callback, when the guard lets it through. */
    method HandleInterpretSelectedIndividualRuna() returns (sent: Option<Runa>)
      ensures sent == IndividualCallback(State())
    {
      sent := selectedRuna;
    }

    method HandleCopyRunasList() returns (texto: string)
      ensures texto == CopyText(selectedRunasList)
    {
      texto := CopyText(selectedRunasList);
    }
  }
}
