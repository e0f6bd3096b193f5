/**
 * The rune page: which of its three views is shown, and the single rune or
 * the rune list handed over for interpretation by the rune chooser.
 */
module RunesPage {
  import opened Wrappers
  import RuneSelector

  type Runa = RuneSelector.Runa

  datatype Vista = RunesOptions | Runas | InterpretacionRunas

  datatype PageState = PageState(
    vista: Vista,
    runa: Option<Runa>,
    lista: Option<seq<Runa>>)

  const Initial: PageState := PageState(RunesOptions, None, None)

  /** What the interpretation view renders. */
  datatype Pantalla = UnaRuna(runa: Runa) | Lista(runas: seq<Runa>) | Error

  /**
   * The single rune wins; otherwise a non-empty list is shown; otherwise the
   * error text.
   */
  function Render(s: PageState): (p: Pantalla)
    ensures p.UnaRuna? <==> s.runa.Some?
    ensures p.UnaRuna? ==> p.runa == s.runa.value
    ensures p.Lista? <==> s.runa.None? && s.lista.Some? && |s.lista.value| > 0
    ensures p.Lista? ==> p.runas == s.lista.value
  {
    if s.runa.Some? then UnaRuna(s.runa.value)
    else if s.lista.Some? && |s.lista.value| > 0 then Lista(s.lista.value)
    else Error
  }

  /** At most one of the two hand-overs is held. */
  predicate AtMostOne(s: PageState)
  {
    s.runa.None? || s.lista.None?
  }

  /** The page's handlers as one transition function, for reasoning about sequences of them. */
  datatype PageEvent = Open | Individual(runa: Runa) | ListOf(runas: seq<Runa>) | Volver

  /**
   * Interpreting stores the hand-over, drops the other one and shows the
   * interpretation; back goes from the chooser to the options and from the
   * interpretation to the chooser, clearing both hand-overs, and does nothing
   * to the page on the options view.
   */
  function Step(s: PageState, e: PageEvent): (r: PageState)
    ensures e.Individual? ==> r.vista == InterpretacionRunas && r.runa == Some(e.runa) && r.lista.None?
    ensures e.ListOf? ==> r.vista == InterpretacionRunas && r.lista == Some(e.runas) && r.runa.None?
    ensures e.Volver? && s.vista != RunesOptions ==> r.runa.None? && r.lista.None?
    ensures e.Volver? && s.vista == RunesOptions ==> r == s
    ensures e.Volver? && s.vista == InterpretacionRunas ==> r.vista == Runas
    ensures e.Volver? && s.vista == Runas ==> r.vista == RunesOptions
  {
    match e
    case Open => s.(vista := Runas)
    case Individual(runa) => PageState(InterpretacionRunas, Some(runa), None)
    case ListOf(runas) => PageState(InterpretacionRunas, None, Some(runas))
    case Volver =>
      match s.vista
      case Runas => PageState(RunesOptions, None, None)
      case InterpretacionRunas => PageState(Runas, None, None)
      case RunesOptions => s
  }

  function Run(s: PageState, events: seq<PageEvent>): PageState
    decreases |events|
  {
    if events == [] then s else Run(Step(s, events[0]), events[1..])
  }

  /**
   * The options card is only on the options view, and the two callbacks only
   * reach the page while the rune chooser (the `runas` view) is mounted.
   */
  predicate Enabled(s: PageState, e: PageEvent)
  {
    match e
    case Open => s.vista == RunesOptions
    case Individual(_) => s.vista == Runas
    case ListOf(_) => s.vista == Runas
    case Volver => true
  }

  predicate AllEnabled(s: PageState, events: seq<PageEvent>)
    decreases |events|
  {
    events == [] || (Enabled(s, events[0]) && AllEnabled(Step(s, events[0]), events[1..]))
  }

  /**
   * The page as the component holds it; each handler moves it as `Step` does.
   * `HandleVolver` also returns whether the browser's history is asked to go
   * back instead.
   */
  class RunesPageState {
    var vistaActual: Vista
    var selectedRunaForInterpretation: Option<Runa>
    var selectedRunasListForInterpretation: Option<seq<Runa>>

    function State(): PageState
      reads this
    {
      PageState(vistaActual, selectedRunaForInterpretation, selectedRunasListForInterpretation)
    }

    constructor()
      ensures State() == Initial
    {
      vistaActual := RunesOptions;
      selectedRunaForInterpretation := None;
      selectedRunasListForInterpretation := None;
    }

    /** The card on the options view opens the rune chooser. */
    method OpenRunas()
      requires vistaActual == RunesOptions
      modifies this
      ensures State() == Step(old(State()), Open)
    {
      vistaActual := Runas;
    }

    method HandleInterpretIndividualRuna(runa: Runa)
      modifies this
      ensures State() == Step(old(State()), Individual(runa))
      ensures Render(State()) == UnaRuna(runa)
    {
      selectedRunaForInterpretation := Some(runa);
      selectedRunasListForInterpretation := None;
      vistaActual := InterpretacionRunas;
    }

    method HandleInterpretRunasList(runas: seq<Runa>)
      modifies this
      ensures State() == Step(old(State()), ListOf(runas))
      ensures |runas| > 0 ==> Render(State()) == Lista(runas)
      ensures |runas| == 0 ==> Render(State()) == Error
    {
      selectedRunasListForInterpretation := Some(runas);
      selectedRunaForInterpretation := None;
      vistaActual := InterpretacionRunas;
    }

    method HandleVolver() returns (historyBack: bool)
      modifies this
      ensures historyBack <==> old(vistaActual) == RunesOptions
      ensures State() == Step(old(State()), Volver)
    {
      historyBack := false;
      if vistaActual == Runas {
        vistaActual := RunesOptions;
        selectedRunaForInterpretation := None;
        selectedRunasListForInterpretation := None;
      } else if vistaActual == InterpretacionRunas {
        vistaActual := Runas;
        selectedRunaForInterpretation := None;
        selectedRunasListForInterpretation := None;
      } else {
        historyBack := true;
      }
    }
  }

  /**
   * Whatever the handlers are called in, at most one hand-over is held, and
   * outside the interpretation view neither is.
   */
  lemma {:induction false} RunAtMostOne(events: seq<PageEvent>)
    requires AllEnabled(Initial, events)
    ensures AtMostOne(Run(Initial, events))
    ensures Run(Initial, events).vista != InterpretacionRunas ==>
      Run(Initial, events).runa.None? && Run(Initial, events).lista.None?
  {
    RunKeeps(Initial, events);
  }

  ghost predicate Clean(s: PageState)
  {
    AtMostOne(s) && (s.vista != InterpretacionRunas ==> s.runa.None? && s.lista.None?)
  }

  lemma {:induction false} RunKeeps(s: PageState, events: seq<PageEvent>)
    requires Clean(s) && AllEnabled(s, events)
    ensures Clean(Run(s, events))
    decreases |events|
  {
    if events != [] {
      RunKeeps(Step(s, events[0]), events[1..]);
    }
  }

  /**
   * Through the rune chooser's guards the interpretation view never shows the
   * error text: the list callback only fires for a non-empty list.
   */
  lemma ChooserNeverShowsError(c: RuneSelector.RunaState, s: PageState)
    requires RuneSelector.ListCallback(c).Some?
    ensures Render(Step(s, ListOf(RuneSelector.ListCallback(c).value))) == Lista(c.list)
  {
  }
}
