/**
 * The card view of a Tarot reading: which slot the next card goes to, the
 * traditional deck's two-step pick (select a card, then confirm it upright or
 * reversed), the Osho deck's one-step pick, the filter buttons that narrow the
 * card list (category, first letter, suit), and the plain-text card list the
 * copy button produces.
 *
 * The view keeps its own state (`SelectorState`) beside the page's
 * `SessionState`; a `Reading` pairs the two. Every step of the view is the
 * handler's effect followed by the render, which sorts the page's cards
 * array by position in place.
 */
module CardSelector {
  import opened Wrappers
  import opened Text
  import opened Sorting
  import opened TarotTypes
  import opened CardCatalog
  import opened ReadingSession

  /** A traditional card waiting for its orientation, with the slot chosen when it was picked. */
  datatype Pendiente = Pendiente(id: string, nombre: string, posicion: int)

  datatype SelectorState = SelectorState(
    posicionActual: int,
    categoria: Option<Categoria>,
    letra: string,
    palo: string,
    pendiente: Option<Pendiente>)

  /** The view's state when it is mounted. */
  const Mounted: SelectorState := SelectorState(1, None, "", "", None)

  datatype Reading = Reading(session: SessionState, selector: SelectorState)

  datatype SelectorEvent =
    | CardClicked(id: string)
    | Confirmed(invertida: bool)
    | Cancelled
    | DoubleClicked(p: int)
    | UndoClicked
    | ClearClicked
    | CategoryChosen(c: Categoria)
    | LetterChosen(l: string)
    | SuitChosen(s: string)
    | FilterBack

  /** The page shows the card view exactly in this state. */
  predicate OnScreen(s: SessionState)
  {
    s.vista == Cartas && s.tirada.Some?
  }

  // ---------------------------------------------------------------------------
  // The next slot

  /** The first slot in `lo..n` that holds no card. */
  function FirstFree(cartas: seq<CartaSeleccionada>, lo: int, n: int): (r: Option<int>)
    ensures r.Some? ==> lo <= r.value <= n && !Occupied(cartas, r.value)
    ensures forall q :: lo <= q <= n && (r.None? || q < r.value) ==> Occupied(cartas, q)
    decreases n - lo
  {
    if lo > n then None
    else if !Occupied(cartas, lo) then Some(lo)
    else FirstFree(cartas, lo + 1, n)
  }

  /**
   * The slot the next card goes to: after the last card in a free-form
   * reading; otherwise the lowest empty slot of the layout's `n`, and when
   * every slot is taken the remembered position `pa`.
   */
  function NextPosition(modoLibre: bool, cartas: seq<CartaSeleccionada>, n: int, pa: int): (r: int)
    ensures modoLibre ==> r == |cartas| + 1
    ensures !modoLibre && (exists q :: 1 <= q <= n && !Occupied(cartas, q)) ==>
      1 <= r <= n && !Occupied(cartas, r) && forall q :: 1 <= q < r ==> Occupied(cartas, q)
    ensures !modoLibre && (forall q :: 1 <= q <= n ==> Occupied(cartas, q)) ==> r == pa
  {
    if modoLibre then |cartas| + 1
    else match FirstFree(cartas, 1, n)
      case Some(p) => p
      case None => pa
  }

  /** The next slot in a reading's current state: the slot the pending-card dialog names. */
  function Next(r: Reading): int
    requires r.session.tirada.Some?
  {
    NextPosition(r.session.modoLibre, r.session.cartas, r.session.tirada.value.numeroCartas,
                 r.selector.posicionActual)
  }

  lemma DenseOccupied(cartas: seq<CartaSeleccionada>, q: int)
    requires Dense(cartas)
    ensures Occupied(cartas, q) <==> 1 <= q <= |cartas|
  {
    if 1 <= q <= |cartas| {
      assert cartas[q - 1].posicion == q;
    }
  }

  /**
   * With the slots filled in order, the next slot is the one after the last
   * card, and once the layout is full the remembered position.
   */
  lemma NextPositionDense(cartas: seq<CartaSeleccionada>, n: int, pa: int)
    requires Dense(cartas) && |cartas| <= n
    ensures NextPosition(false, cartas, n, pa) == if |cartas| < n then |cartas| + 1 else pa
  {
    var k := |cartas|;
    DenseOccupied(cartas, k + 1);
    forall q | 1 <= q <= k
      ensures Occupied(cartas, q)
    {
      DenseOccupied(cartas, q);
    }
  }

  // ---------------------------------------------------------------------------
  // The view's handlers

  /** The remembered position after a card went to `pos`: the slot after it, within the layout. */
  function Advance(s: SessionState, sel: SelectorState, pos: int): int
    requires s.tirada.Some?
  {
    if !s.modoLibre && pos < s.tirada.value.numeroCartas then pos + 1 else sel.posicionActual
  }

  /** Picking a card closes the card list: the suit for the minor arcana, otherwise the letter. */
  function CloseList(sel: SelectorState): SelectorState
  {
    if sel.categoria == Some(Menores) then sel.(palo := "") else sel.(letra := "")
  }

  function SelectCard(catalog: seq<CardName>, r: Reading, id: string): Reading
    requires OnScreen(r.session)
  {
    var s := r.session;
    var pos := Next(r);
    if s.baraja == Tradicional then
      Reading(s, CloseList(r.selector).(pendiente := Some(Pendiente(id, CardNameById(catalog, id), pos))))
    else
      Reading(AddCard(s, CartaSeleccionada(pos, id, false, s.baraja)),
              CloseList(r.selector).(posicionActual := Advance(s, r.selector, pos)))
  }

  /**
   * The confirm handler as the source writes it: the pending card goes to the
   * slot chosen when it was picked, although the dialog names the slot that is
   * next now.
   */
  function ConfirmAsWritten(r: Reading, invertida: bool): Reading
    requires OnScreen(r.session)
  {
    match r.selector.pendiente
    case None => r
    case Some(p) =>
      var s := r.session;
      Reading(AddCard(s, CartaSeleccionada(p.posicion, p.id, invertida, s.baraja)),
              r.selector.(posicionActual := Advance(s, r.selector, p.posicion), pendiente := None))
  }

  /** Confirms the pending card at the slot the dialog names: the next slot at the moment of confirming. */
  function Confirm(r: Reading, invertida: bool): Reading
    requires OnScreen(r.session)
  {
    match r.selector.pendiente
    case None => r
    case Some(p) =>
      var s := r.session;
      var pos := Next(r);
      Reading(AddCard(s, CartaSeleccionada(pos, p.id, invertida, s.baraja)),
              r.selector.(posicionActual := Advance(s, r.selector, pos), pendiente := None))
  }

  function Cancel(r: Reading): Reading
  {
    r.(selector := r.selector.(pendiente := None))
  }

  /** Double-clicking a placed card reverses it; Osho cards have no orientation. */
  function DoubleClick(r: Reading, p: int): Reading
  {
    if r.session.baraja == Tradicional then r.(session := ToggleCard(r.session, p)) else r
  }

  function ChooseCategory(sel: SelectorState, c: Categoria): SelectorState
  {
    sel.(categoria := Some(c), letra := "", palo := "")
  }

  /** The filter's back button undoes the innermost choice: suit, then letter, then category. */
  function FilterBackStep(sel: SelectorState): SelectorState
  {
    if sel.palo != "" then sel.(palo := "")
    else if sel.letra != "" then sel.(letra := "")
    else if sel.categoria.Some? then sel.(categoria := None)
    else sel
  }

  function Handle(catalog: seq<CardName>, r: Reading, e: SelectorEvent): (r': Reading)
    requires OnScreen(r.session)
    ensures OnScreen(r'.session)
    ensures r'.session.modoLibre == r.session.modoLibre && r'.session.baraja == r.session.baraja
  {
    match e
    case CardClicked(id) => SelectCard(catalog, r, id)
    case Confirmed(inv) => Confirm(r, inv)
    case Cancelled => Cancel(r)
    case DoubleClicked(p) => DoubleClick(r, p)
    case UndoClicked => r.(session := UndoLast(r.session))
    case ClearClicked => r.(session := ClearCards(r.session))
    case CategoryChosen(c) => r.(selector := ChooseCategory(r.selector, c))
    case LetterChosen(l) => r.(selector := r.selector.(letra := l))
    case SuitChosen(p) => r.(selector := r.selector.(palo := p))
    case FilterBack => r.(selector := FilterBackStep(r.selector))
  }

  /** One step of the view: the handler, then the render's in-place sort of the cards. */
  function Step(catalog: seq<CardName>, r: Reading, e: SelectorEvent): (r': Reading)
    requires OnScreen(r.session)
    ensures OnScreen(r'.session)
  {
    var h := Handle(catalog, r, e);
    h.(session := RenderSort(h.session))
  }

  function RunView(catalog: seq<CardName>, r: Reading, events: seq<SelectorEvent>): (r': Reading)
    requires OnScreen(r.session)
    ensures OnScreen(r'.session)
    decreases |events|
  {
    if events == [] then r else RunView(catalog, Step(catalog, r, events[0]), events[1..])
  }

  // ---------------------------------------------------------------------------
  // A fixed layout's placements

  /**
   * Every reachable state of a fixed layout's view: the page invariant, every
   * card and the pending card in the layout's slots 1..N, and the remembered
   * position within them.
   */
  ghost predicate Bounded(r: Reading)
  {
    var s := r.session;
    var sel := r.selector;
    && OnScreen(s) && !s.modoLibre && Invariant(s)
    && (var n := s.tirada.value.numeroCartas;
        && 1 <= n
        && (forall p :: Occupied(s.cartas, p) ==> 1 <= p <= n)
        && 1 <= sel.posicionActual <= n
        && (sel.pendiente.Some? ==> 1 <= sel.pendiente.value.posicion <= n))
    && (s.baraja != Tradicional ==> sel.pendiente.None?)
  }

  /** The orderly states: the slots are filled from 1 upwards in the order the cards were placed. */
  ghost predicate Orderly(r: Reading)
  {
    Bounded(r) && Dense(r.session.cartas)
  }

  /** An orderly state whose pending card was picked for the slot the dialog names. */
  ghost predicate Staged(r: Reading)
  {
    && Orderly(r)
    && (r.selector.pendiente.Some? ==> r.selector.pendiente.value.posicion == Next(r))
  }

  lemma OccupiedPermutation(a: seq<CartaSeleccionada>, b: seq<CartaSeleccionada>, p: int)
    requires multiset(a) == multiset(b)
    ensures Occupied(a, p) <==> Occupied(b, p)
  {
    if Occupied(a, p) {
      var i :| 0 <= i < |a| && a[i].posicion == p;
      assert a[i] in multiset(b);
    }
    if Occupied(b, p) {
      var i :| 0 <= i < |b| && b[i].posicion == p;
      assert b[i] in multiset(a);
    }
  }

  /** The render's sort keeps the page invariant and the occupied slots, and leaves dense cards alone. */
  lemma RenderKeeps(s: SessionState)
    requires Invariant(s) && OnScreen(s)
    ensures Invariant(RenderSort(s))
    ensures forall p :: Occupied(RenderSort(s).cartas, p) <==> Occupied(s.cartas, p)
    ensures Dense(s.cartas) ==> RenderSort(s) == s
  {
    StepPreserves(TarotPage, s, CardsRendered);
    SortByPermutation(s.cartas, PositionOf);
    forall p
      ensures Occupied(RenderSort(s).cartas, p) <==> Occupied(s.cartas, p)
    {
      OccupiedPermutation(RenderSort(s).cartas, s.cartas, p);
    }
    if Dense(s.cartas) {
      SortByOfSorted(s.cartas, PositionOf);
    }
  }

  /** Placing a card at slot `pos` of 1..N keeps every card in 1..N. */
  lemma PlaceBounded(s: SessionState, c: CartaSeleccionada)
    requires Invariant(s) && OnScreen(s) && !s.modoLibre
    requires forall p :: Occupied(s.cartas, p) ==> 1 <= p <= s.tirada.value.numeroCartas
    requires 1 <= c.posicion <= s.tirada.value.numeroCartas
    ensures var a := AddCard(s, c);
      && Invariant(a) && OnScreen(a) && a.tirada == s.tirada
      && forall p :: Occupied(a.cartas, p) ==> 1 <= p <= s.tirada.value.numeroCartas
  {
    AddPreserves(s, c);
    ReplaceOrAppendPlaces(s.cartas, c);
  }

  lemma HandleBounded(catalog: seq<CardName>, r: Reading, e: SelectorEvent)
    requires Bounded(r)
    ensures Bounded(Handle(catalog, r, e))
  {
    var s := r.session;
    match e
    case CardClicked(id) => PickBounded(catalog, r, id);
    case Confirmed(inv) => ConfirmBounded(r, inv);
    case DoubleClicked(p) => ToggleBounded(r, p);
    case UndoClicked => UndoBounded(r);
    case ClearClicked =>
      assert Handle(catalog, r, e).session == s.(cartas := []);
    case Cancelled =>
    case _ =>
      var h := Handle(catalog, r, e);
      assert h.session == s && h.selector.posicionActual == r.selector.posicionActual
        && h.selector.pendiente == r.selector.pendiente;
  }

  lemma PickBounded(catalog: seq<CardName>, r: Reading, id: string)
    requires Bounded(r)
    ensures Bounded(SelectCard(catalog, r, id))
  {
    var s := r.session;
    if s.baraja != Tradicional {
      PlaceBounded(s, CartaSeleccionada(Next(r), id, false, s.baraja));
    }
  }

  lemma ConfirmBounded(r: Reading, inv: bool)
    requires Bounded(r)
    ensures Bounded(Confirm(r, inv))
  {
    var s := r.session;
    if r.selector.pendiente.Some? {
      var p := r.selector.pendiente.value;
      PlaceBounded(s, CartaSeleccionada(Next(r), p.id, inv, s.baraja));
    }
  }

  lemma ToggleBounded(r: Reading, p: int)
    requires Bounded(r)
    ensures Bounded(DoubleClick(r, p))
  {
    var s := r.session;
    var n := s.tirada.value.numeroCartas;
    var t := ToggleCard(s, p);
    StepPreserves(TarotPage, s, CardToggled(p));
    ToggleTwice(s, p);
    forall q | Occupied(t.cartas, q)
      ensures 1 <= q <= n
    {
      var i :| 0 <= i < |t.cartas| && t.cartas[i].posicion == q;
      assert s.cartas[i].posicion == q;
      assert Occupied(s.cartas, q);
    }
  }

  lemma UndoBounded(r: Reading)
    requires Bounded(r)
    ensures Bounded(r.(session := UndoLast(r.session)))
  {
    var s := r.session;
    var n := s.tirada.value.numeroCartas;
    UndoPreserves(s);
    var u := UndoLast(s);
    forall q | Occupied(u.cartas, q)
      ensures 1 <= q <= n
    {
      var i :| 0 <= i < |u.cartas| && u.cartas[i].posicion == q;
      assert s.cartas[i].posicion == q;
      assert Occupied(s.cartas, q);
    }
  }

  /** Every step keeps a fixed layout's view within its slots, whatever the user does. */
  lemma StepBounded(catalog: seq<CardName>, r: Reading, e: SelectorEvent)
    requires Bounded(r)
    ensures Bounded(Step(catalog, r, e))
  {
    var h := Handle(catalog, r, e);
    HandleBounded(catalog, r, e);
    RenderKeeps(h.session);
  }

  lemma {:induction false} RunBounded(catalog: seq<CardName>, r: Reading, events: seq<SelectorEvent>)
    requires Bounded(r)
    ensures Bounded(RunView(catalog, r, events))
    decreases |events|
  {
    if events != [] {
      StepBounded(catalog, r, events[0]);
      RunBounded(catalog, Step(catalog, r, events[0]), events[1..]);
    }
  }

  /** Choosing a fixed layout of at least one slot mounts the view in an orderly state. */
  lemma MountStaged(s: SessionState, t: Tirada, b: Baraja)
    requires Invariant(s) && s.vista == Tiradas && !s.modoLibre
    requires t.numeroCartas >= 1
    ensures Staged(Reading(SelectLayout(s, t, b), Mounted))
  {
    StepPreserves(TarotPage, s, LayoutChosen(t, b));
  }

  /**
   * In any reachable state of a fixed layout, the reading can be interpreted
   * exactly when every slot 1..N holds a card.
   */
  lemma BoundedInterpretIffFull(r: Reading)
    requires Bounded(r)
    ensures CanInterpret(r.session) <==>
      forall p :: 1 <= p <= r.session.tirada.value.numeroCartas ==> Occupied(r.session.cartas, p)
  {
    var s := r.session;
    forall i | 0 <= i < |s.cartas|
      ensures 1 <= s.cartas[i].posicion <= s.tirada.value.numeroCartas
    {
      assert Occupied(s.cartas, s.cartas[i].posicion);
    }
    CanInterpretIffAllPlaced(s);
  }

  /** Placing a card at the next slot of an orderly fixed layout keeps it orderly. */
  lemma PlaceNextDense(s: SessionState, c: CartaSeleccionada, pa: int)
    requires Invariant(s) && OnScreen(s) && !s.modoLibre
    requires Dense(s.cartas) && |s.cartas| <= s.tirada.value.numeroCartas
    requires 1 <= pa <= s.tirada.value.numeroCartas
    requires c.posicion == NextPosition(false, s.cartas, s.tirada.value.numeroCartas, pa)
    ensures Dense(AddCard(s, c).cartas)
  {
    var n := s.tirada.value.numeroCartas;
    NextPositionDense(s.cartas, n, pa);
    ReplaceOrAppendPlaces(s.cartas, c);
    DenseOccupied(s.cartas, c.posicion);
  }

  lemma HandleOrderly(catalog: seq<CardName>, r: Reading, e: SelectorEvent)
    requires Orderly(r)
    ensures Orderly(Handle(catalog, r, e))
  {
    HandleBounded(catalog, r, e);
    var s := r.session;
    var n := s.tirada.value.numeroCartas;
    var pa := r.selector.posicionActual;
    DenseOccupied(s.cartas, n + 1);
    match e
    case CardClicked(id) =>
      if s.baraja != Tradicional {
        PlaceNextDense(s, CartaSeleccionada(Next(r), id, false, s.baraja), pa);
      }
    case Confirmed(inv) =>
      if r.selector.pendiente.Some? {
        var p := r.selector.pendiente.value;
        PlaceNextDense(s, CartaSeleccionada(Next(r), p.id, inv, s.baraja), pa);
      }
    case DoubleClicked(p) =>
      ToggleTwice(s, p);
    case _ =>
  }

  lemma StepOrderly(catalog: seq<CardName>, r: Reading, e: SelectorEvent)
    requires Orderly(r)
    ensures Orderly(Step(catalog, r, e))
  {
    HandleOrderly(catalog, r, e);
    RenderKeeps(Handle(catalog, r, e).session);
  }

  /** Picking a traditional card while slots are left stages it for the slot after the last card. */
  lemma PickStagesNext(catalog: seq<CardName>, r: Reading, id: string)
    requires Orderly(r) && r.session.baraja == Tradicional
    requires |r.session.cartas| < r.session.tirada.value.numeroCartas
    ensures var r' := Step(catalog, r, CardClicked(id));
      && r'.session == r.session
      && r'.selector.pendiente == Some(Pendiente(id, CardNameById(catalog, id), |r.session.cartas| + 1))
  {
    NextPositionDense(r.session.cartas, r.session.tirada.value.numeroCartas, r.selector.posicionActual);
    RenderKeeps(r.session);
  }

  /** Confirming while slots are left appends the pending card, with its orientation, at the next slot. */
  lemma ConfirmAppends(catalog: seq<CardName>, r: Reading, invertida: bool)
    requires Orderly(r) && r.selector.pendiente.Some?
    requires |r.session.cartas| < r.session.tirada.value.numeroCartas
    ensures var r' := Step(catalog, r, Confirmed(invertida));
      && r'.session.cartas == r.session.cartas
           + [CartaSeleccionada(|r.session.cartas| + 1, r.selector.pendiente.value.id, invertida, r.session.baraja)]
      && r'.selector.pendiente.None?
  {
    var s := r.session;
    NextPositionDense(s.cartas, s.tirada.value.numeroCartas, r.selector.posicionActual);
    DenseOccupied(s.cartas, |s.cartas| + 1);
    var h := Handle(catalog, r, Confirmed(invertida));
    StepOrderly(catalog, r, Confirmed(invertida));
    HandleOrderly(catalog, r, Confirmed(invertida));
    RenderKeeps(h.session);
  }

  /**
   * Whatever the user does, a fixed layout fills its slots 1, 2, 3, ... in the
   * order the cards are placed: no slot is skipped.
   */
  lemma {:induction false} RunOrderly(catalog: seq<CardName>, r: Reading, events: seq<SelectorEvent>)
    requires Orderly(r)
    ensures Orderly(RunView(catalog, r, events))
    decreases |events|
  {
    if events != [] {
      StepOrderly(catalog, r, events[0]);
      RunOrderly(catalog, Step(catalog, r, events[0]), events[1..]);
    }
  }

  /**
   * A pending card stays bound for the dialog's slot through every step but
   * undo and clear, which move the next slot while the card waits.
   */
  lemma StepStaged(catalog: seq<CardName>, r: Reading, e: SelectorEvent)
    requires Staged(r)
    requires (e.UndoClicked? || e.ClearClicked?) ==> r.selector.pendiente.None?
    ensures Staged(Step(catalog, r, e))
  {
    var h := Handle(catalog, r, e);
    assert Orderly(h) by {
      HandleOrderly(catalog, r, e);
    }
    assert Step(catalog, r, e) == h by {
      RenderKeeps(h.session);
    }
    HandlePending(catalog, r, e);
  }

  /** After a handler other than undo and clear, a pending card is still bound for the next slot. */
  lemma HandlePending(catalog: seq<CardName>, r: Reading, e: SelectorEvent)
    requires Staged(r)
    requires (e.UndoClicked? || e.ClearClicked?) ==> r.selector.pendiente.None?
    ensures var h := Handle(catalog, r, e);
      h.selector.pendiente.Some? ==> h.selector.pendiente.value.posicion == Next(h)
  {
    match e
    case DoubleClicked(p) =>
      var s := r.session;
      var n := s.tirada.value.numeroCartas;
      var pa := r.selector.posicionActual;
      var h := Handle(catalog, r, e);
      assert |s.cartas| <= n by {
        DenseOccupied(s.cartas, n + 1);
      }
      ToggleTwice(s, p);
      assert Next(r) == (if |s.cartas| < n then |s.cartas| + 1 else pa) by {
        NextPositionDense(s.cartas, n, pa);
      }
      assert Next(h) == (if |s.cartas| < n then |s.cartas| + 1 else pa) by {
        NextPositionDense(h.session.cartas, n, pa);
      }
    case CardClicked(id) =>
      var h := Handle(catalog, r, e);
      if r.session.baraja == Tradicional {
        assert h.session == r.session && h.selector.posicionActual == r.selector.posicionActual;
        assert h.selector.pendiente.value.posicion == Next(r);
      } else {
        assert h.selector.pendiente.None?;
      }
    case Confirmed(_) =>
    case Cancelled =>
    case UndoClicked =>
    case ClearClicked =>
    case _ =>
      var h := Handle(catalog, r, e);
      assert h.session == r.session && h.selector.posicionActual == r.selector.posicionActual
        && h.selector.pendiente == r.selector.pendiente;
  }

  /** In a staged state the source's confirm and the corrected one coincide. */
  lemma AsWrittenAgreesWhenStaged(r: Reading, invertida: bool)
    requires Staged(r)
    ensures ConfirmAsWritten(r, invertida) == Confirm(r, invertida)
  {
  }

  /** In a free-form reading the session ignores the staged slot, so the two confirms coincide. */
  lemma AsWrittenAgreesWhenFree(r: Reading, invertida: bool)
    requires Invariant(r.session) && OnScreen(r.session) && r.session.modoLibre
    ensures ConfirmAsWritten(r, invertida) == Confirm(r, invertida)
  {
    if r.selector.pendiente.Some? {
      var p := r.selector.pendiente.value;
      var s := r.session;
      AddFreeAppends(s, CartaSeleccionada(p.posicion, p.id, invertida, s.baraja), Next(r));
    }
  }

  /** Picking a traditional card and confirming it upright appends it at the next slot. */
  lemma PickThenConfirm(catalog: seq<CardName>, r: Reading, id: string)
    requires Orderly(r) && r.session.baraja == Tradicional
    requires |r.session.cartas| < r.session.tirada.value.numeroCartas
    ensures var r' := Step(catalog, Step(catalog, r, CardClicked(id)), Confirmed(false));
      && Orderly(r') && r'.session.tirada == r.session.tirada && r'.session.baraja == Tradicional
      && r'.session.cartas == r.session.cartas + [CartaSeleccionada(|r.session.cartas| + 1, id, false, Tradicional)]
  {
    var r1 := Step(catalog, r, CardClicked(id));
    PickStagesNext(catalog, r, id);
    StepOrderly(catalog, r, CardClicked(id));
    ConfirmAppends(catalog, r1, false);
    StepOrderly(catalog, r1, Confirmed(false));
  }

  /** The state the undo-while-pending trace ends in: one card in slot 1, a card pending for slot 3. */
  ghost predicate SkipSetUp(catalog: seq<CardName>, r: Reading, t: Tirada)
  {
    && Orderly(r) && r.session.tirada == Some(t) && r.session.baraja == Tradicional
    && r.session.cartas == [CartaSeleccionada(1, "a", false, Tradicional)]
    && r.selector.pendiente == Some(Pendiente("c", CardNameById(catalog, "c"), 3))
  }

  lemma PickThenUndo(catalog: seq<CardName>, r: Reading, t: Tirada)
    requires Orderly(r) && r.session.tirada == Some(t) && t.numeroCartas == 3
    requires r.session.baraja == Tradicional && |r.session.cartas| == 2
    requires r.session.cartas[0] == CartaSeleccionada(1, "a", false, Tradicional)
    ensures SkipSetUp(catalog, RunView(catalog, r, [CardClicked("c"), UndoClicked]), t)
  {
    var evs := [CardClicked("c"), UndoClicked];
    var r1 := Step(catalog, r, evs[0]);
    PickStagesNext(catalog, r, "c");
    StepOrderly(catalog, r, evs[0]);
    var r2 := Step(catalog, r1, evs[1]);
    StepOrderly(catalog, r1, evs[1]);
    assert UndoLast(r1.session).cartas == [CartaSeleccionada(1, "a", false, Tradicional)];
    RenderKeeps(UndoLast(r1.session));
    assert evs[1..][1..] == [];
  }

  lemma SecondCardThenUndo(catalog: seq<CardName>, r: Reading, t: Tirada)
    requires Orderly(r) && r.session.tirada == Some(t) && t.numeroCartas == 3
    requires r.session.baraja == Tradicional
    requires r.session.cartas == [CartaSeleccionada(1, "a", false, Tradicional)]
    ensures SkipSetUp(catalog, RunView(catalog, r, [CardClicked("b"), Confirmed(false), CardClicked("c"), UndoClicked]), t)
  {
    var evs := [CardClicked("b"), Confirmed(false), CardClicked("c"), UndoClicked];
    PickThenConfirm(catalog, r, "b");
    var r2 := Step(catalog, Step(catalog, r, evs[0]), evs[1]);
    PickThenUndo(catalog, r2, t);
    assert evs[1..][1..] == evs[2..];
  }

  /**
   * With a three-slot layout: two cards picked and confirmed, a third picked
   * (bound for slot 3), then undo, which removes the second card.
   */
  lemma UndoWhilePending(catalog: seq<CardName>, s: SessionState, t: Tirada)
    requires Invariant(s) && s.vista == Tiradas && !s.modoLibre && t.numeroCartas == 3
    ensures SkipSetUp(catalog, RunView(catalog, Reading(SelectLayout(s, t, Tradicional), Mounted),
                                       [CardClicked("a"), Confirmed(false), CardClicked("b"), Confirmed(false),
                                        CardClicked("c"), UndoClicked]), t)
  {
    var evs := [CardClicked("a"), Confirmed(false), CardClicked("b"), Confirmed(false),
                CardClicked("c"), UndoClicked];
    var r0 := Reading(SelectLayout(s, t, Tradicional), Mounted);
    MountStaged(s, t, Tradicional);
    PickThenConfirm(catalog, r0, "a");
    var r2 := Step(catalog, Step(catalog, r0, evs[0]), evs[1]);
    SecondCardThenUndo(catalog, r2, t);
    assert evs[1..][1..] == evs[2..];
  }

  /**
   * The source's confirm skips a slot. In the state `UndoWhilePending` reaches,
   * the dialog names slot 2, but confirming puts the card in slot 3 and leaves
   * slot 2 empty; the corrected confirm puts it in slot 2.
   */
  lemma StalePendingSkipsSlot(r: Reading, nombre: string)
    requires Orderly(r) && r.session.tirada.value.numeroCartas == 3 && r.session.baraja == Tradicional
    requires r.session.cartas == [CartaSeleccionada(1, "a", false, Tradicional)]
    requires r.selector.pendiente == Some(Pendiente("c", nombre, 3))
    ensures Next(r) == 2
    ensures ConfirmAsWritten(r, false).session.cartas
         == [CartaSeleccionada(1, "a", false, Tradicional), CartaSeleccionada(3, "c", false, Tradicional)]
    ensures !Dense(ConfirmAsWritten(r, false).session.cartas)
    ensures Confirm(r, false).session.cartas
         == [CartaSeleccionada(1, "a", false, Tradicional), CartaSeleccionada(2, "c", false, Tradicional)]
    ensures Dense(Confirm(r, false).session.cartas)
  {
    NextPositionDense(r.session.cartas, 3, r.selector.posicionActual);
    DenseOccupied(r.session.cartas, 2);
    DenseOccupied(r.session.cartas, 3);
    assert ConfirmAsWritten(r, false).session.cartas[1].posicion == 3;
  }

  // ---------------------------------------------------------------------------
  // The view as the source writes it

  /** The handlers with the source's confirm: the pending card goes to the slot captured when it was picked. */
  function HandleAsWritten(catalog: seq<CardName>, r: Reading, e: SelectorEvent): (r': Reading)
    requires OnScreen(r.session)
    ensures OnScreen(r'.session)
    ensures r'.session.modoLibre == r.session.modoLibre && r'.session.baraja == r.session.baraja
  {
    match e
    case Confirmed(inv) => ConfirmAsWritten(r, inv)
    case _ => Handle(catalog, r, e)
  }

  function StepAsWritten(catalog: seq<CardName>, r: Reading, e: SelectorEvent): (r': Reading)
    requires OnScreen(r.session)
    ensures OnScreen(r'.session)
  {
    var h := HandleAsWritten(catalog, r, e);
    h.(session := RenderSort(h.session))
  }

  function RunViewAsWritten(catalog: seq<CardName>, r: Reading, events: seq<SelectorEvent>): (r': Reading)
    requires OnScreen(r.session)
    ensures OnScreen(r'.session)
    decreases |events|
  {
    if events == [] then r else RunViewAsWritten(catalog, StepAsWritten(catalog, r, events[0]), events[1..])
  }

  /** No undo or clear is pressed while a card waits in the orientation dialog. */
  ghost predicate NoUndoWhilePending(catalog: seq<CardName>, r: Reading, events: seq<SelectorEvent>)
    requires OnScreen(r.session)
    decreases |events|
  {
    events == [] ||
      (&& ((events[0].UndoClicked? || events[0].ClearClicked?) ==> r.selector.pendiente.None?)
       && NoUndoWhilePending(catalog, StepAsWritten(catalog, r, events[0]), events[1..]))
  }

  /** The source's confirm places the pending card inside 1..N, since it was picked for such a slot. */
  lemma ConfirmAsWrittenBounded(r: Reading, inv: bool)
    requires Bounded(r)
    ensures Bounded(ConfirmAsWritten(r, inv))
  {
    var s := r.session;
    if r.selector.pendiente.Some? {
      var p := r.selector.pendiente.value;
      PlaceBounded(s, CartaSeleccionada(p.posicion, p.id, inv, s.baraja));
    }
  }

  lemma StepAsWrittenBounded(catalog: seq<CardName>, r: Reading, e: SelectorEvent)
    requires Bounded(r)
    ensures Bounded(StepAsWritten(catalog, r, e))
  {
    var h := HandleAsWritten(catalog, r, e);
    if e.Confirmed? {
      ConfirmAsWrittenBounded(r, e.invertida);
    } else {
      HandleBounded(catalog, r, e);
    }
    RenderKeeps(h.session);
  }

  /** Whatever the user does, the source's view keeps a fixed layout's cards within its slots 1..N. */
  lemma {:induction false} RunBoundedAsWritten(catalog: seq<CardName>, r: Reading, events: seq<SelectorEvent>)
    requires Bounded(r)
    ensures Bounded(RunViewAsWritten(catalog, r, events))
    decreases |events|
  {
    if events != [] {
      StepAsWrittenBounded(catalog, r, events[0]);
      RunBoundedAsWritten(catalog, StepAsWritten(catalog, r, events[0]), events[1..]);
    }
  }

  /** While the pending card is bound for the dialog's slot, the source's step is the corrected one. */
  lemma StepAsWrittenAgrees(catalog: seq<CardName>, r: Reading, e: SelectorEvent)
    requires Staged(r)
    ensures StepAsWritten(catalog, r, e) == Step(catalog, r, e)
  {
    if e.Confirmed? {
      AsWrittenAgreesWhenStaged(r, e.invertida);
    }
  }

  /**
   * As long as undo and clear are not pressed while a card is pending, the
   * source's view fills a fixed layout's slots 1, 2, 3, ... in placement
   * order, and behaves exactly as the corrected view.
   */
  lemma {:induction false} RunOrderlyAsWritten(catalog: seq<CardName>, r: Reading, events: seq<SelectorEvent>)
    requires Staged(r) && NoUndoWhilePending(catalog, r, events)
    ensures Orderly(RunViewAsWritten(catalog, r, events))
    ensures RunViewAsWritten(catalog, r, events) == RunView(catalog, r, events)
    decreases |events|
  {
    if events != [] {
      StepAsWrittenAgrees(catalog, r, events[0]);
      StepStaged(catalog, r, events[0]);
      RunOrderlyAsWritten(catalog, Step(catalog, r, events[0]), events[1..]);
    }
  }

  /** With the card staged for the next slot, the source's confirm appends it there. */
  lemma ConfirmAsWrittenAppends(catalog: seq<CardName>, r: Reading, invertida: bool)
    requires Staged(r) && r.selector.pendiente.Some?
    requires |r.session.cartas| < r.session.tirada.value.numeroCartas
    ensures var r' := StepAsWritten(catalog, r, Confirmed(invertida));
      && r'.session.cartas == r.session.cartas
           + [CartaSeleccionada(|r.session.cartas| + 1, r.selector.pendiente.value.id, invertida, r.session.baraja)]
      && r'.selector.pendiente.None?
  {
    StepAsWrittenAgrees(catalog, r, Confirmed(invertida));
    ConfirmAppends(catalog, r, invertida);
  }

  // ---------------------------------------------------------------------------
  // The filter buttons

  /** The card list is on screen: a letter or suit chosen (traditional), a letter chosen (Osho). */
  predicate CardListShown(b: Baraja, sel: SelectorState)
  {
    if b == Tradicional then sel.letra != "" || sel.palo != "" else sel.letra != ""
  }

  /** The filter choices the buttons can produce: a letter under the major arcana, a suit under the minor. */
  predicate WellFormed(b: Baraja, sel: SelectorState)
  {
    if b == Tradicional then
      && (sel.letra != "" ==> sel.categoria == Some(Mayores))
      && (sel.palo != "" ==> sel.categoria == Some(Menores))
    else sel.categoria.None? && sel.palo == ""
  }

  /** Whether the control that raises `e` is on screen. */
  predicate ViewEnabled(b: Baraja, sel: SelectorState, e: SelectorEvent)
  {
    match e
    case CategoryChosen(_) => b == Tradicional && sel.categoria.None? && sel.letra == "" && sel.palo == ""
    case LetterChosen(_) =>
      (b == Tradicional && sel.categoria == Some(Mayores) && sel.letra == "") || (b == Osho && sel.letra == "")
    case SuitChosen(_) => b == Tradicional && sel.categoria == Some(Menores) && sel.palo == ""
    case FilterBack => sel.categoria.Some? || sel.letra != "" || sel.palo != ""
    case CardClicked(_) => CardListShown(b, sel)
    case Confirmed(_) => sel.pendiente.Some?
    case Cancelled => sel.pendiente.Some?
    case _ => true
  }

  /**
   * The buttons keep the filter choices well formed, and picking a card
   * closes the card list.
   */
  lemma FilterWellFormed(catalog: seq<CardName>, r: Reading, e: SelectorEvent)
    requires OnScreen(r.session) && WellFormed(r.session.baraja, r.selector)
    requires ViewEnabled(r.session.baraja, r.selector, e)
    ensures WellFormed(r.session.baraja, Step(catalog, r, e).selector)
    ensures e.CardClicked? ==> !CardListShown(r.session.baraja, Step(catalog, r, e).selector)
  {
  }

  /** Two presses of the filter's back button return any well-formed choice to the category buttons. */
  lemma FilterBackTwice(b: Baraja, sel: SelectorState)
    requires WellFormed(b, sel)
    ensures var top := FilterBackStep(FilterBackStep(sel));
      top.categoria.None? && top.letra == "" && top.palo == "" && top.pendiente == sel.pendiente
  {
  }

  // ---------------------------------------------------------------------------
  // The copied card list

  /** The first slot of a layout numbered `pos` (`find`). */
  function FindSlot(ps: seq<Posicion>, pos: int): (r: Option<Posicion>)
    ensures r.Some? ==> r.value.numero == pos && exists i :: (0 <= i < |ps| && ps[i] == r.value
      && forall j :: 0 <= j < i ==> ps[j].numero != pos)
    ensures r.None? ==> forall i :: 0 <= i < |ps| ==> ps[i].numero != pos
  {
    if ps == [] then None
    else if ps[0].numero == pos then Some(ps[0])
    else
      var r := FindSlot(ps[1..], pos);
      assert forall i :: 1 <= i < |ps| ==> ps[i] == ps[1..][i - 1];
      r
  }

  /** A slot's name in the copied list: the layout's name for it, or "Carta n" when it has none. */
  function SlotName(t: Tirada, pos: int): string
  {
    match FindSlot(t.posiciones, pos)
    case Some(p) => if p.nombre != "" then p.nombre else "Carta " + IntToString(pos)
    case None => "Carta " + IntToString(pos)
  }

  /** The `index`-th line of the copied list. */
  function CopyLine(catalog: seq<CardName>, modoLibre: bool, t: Tirada, index: nat, c: CartaSeleccionada): string
  {
    IntToString(index + 1) + ". " + (if modoLibre then "" else SlotName(t, c.posicion) + ": ")
    + CardNameById(catalog, c.carta) + (if c.invertida then " (Invertida)" else "")
  }

  function CopyLines(catalog: seq<CardName>, modoLibre: bool, t: Tirada, cartas: seq<CartaSeleccionada>)
    : (r: seq<string>)
    ensures |r| == |cartas|
  {
    seq(|cartas|, i requires 0 <= i < |cartas| => CopyLine(catalog, modoLibre, t, i, cartas[i]))
  }

  /** The copy button's text: one line per card, in position order, joined by newlines. */
  function CopyText(catalog: seq<CardName>, s: SessionState): string
    requires s.tirada.Some?
  {
    Join(CopyLines(catalog, s.modoLibre, s.tirada.value, SortBy(s.cartas, PositionOf)), '\n')
  }

  /** No newline in any name the copied list is built from. */
  ghost predicate SingleLineNames(catalog: seq<CardName>, s: SessionState)
    requires s.tirada.Some?
  {
    && (forall i :: 0 <= i < |catalog| ==> '\n' !in catalog[i].name)
    && (forall i :: 0 <= i < |s.cartas| ==> '\n' !in s.cartas[i].carta)
    && (forall i :: 0 <= i < |s.tirada.value.posiciones| ==> '\n' !in s.tirada.value.posiciones[i].nombre)
  }

  lemma NumberHasNoNewline(n: int)
    ensures '\n' !in IntToString(n)
  {
  }

  lemma CopyLineSingle(catalog: seq<CardName>, s: SessionState, index: nat, c: CartaSeleccionada)
    requires s.tirada.Some? && SingleLineNames(catalog, s) && c in s.cartas
    ensures '\n' !in CopyLine(catalog, s.modoLibre, s.tirada.value, index, c)
  {
    NumberHasNoNewline(index + 1);
    NumberHasNoNewline(c.posicion);
    var t := s.tirada.value;
    var slot := FindSlot(t.posiciones, c.posicion);
    var name := CardNameById(catalog, c.carta);
    if exists i :: 0 <= i < |catalog| && catalog[i].id == c.carta {
      var i :| 0 <= i < |catalog| && catalog[i].id == c.carta && name == catalog[i].name;
    }
    assert '\n' !in SlotName(t, c.posicion);
  }

  /** Each line is numbered from 1 and ends in " (Invertida)" when its card is reversed. */
  lemma CopyLinesShape(catalog: seq<CardName>, modoLibre: bool, t: Tirada, cartas: seq<CartaSeleccionada>, i: nat)
    requires i < |cartas|
    ensures var line := CopyLines(catalog, modoLibre, t, cartas)[i];
      && HasPrefix(line, IntToString(i + 1) + ". ")
      && (cartas[i].invertida ==> HasSuffix(line, " (Invertida)"))
  {
    assert CopyLines(catalog, modoLibre, t, cartas)[i] == CopyLine(catalog, modoLibre, t, i, cartas[i]);
    CopyLineShape(catalog, modoLibre, t, i, cartas[i]);
  }

  lemma CopyLineShape(catalog: seq<CardName>, modoLibre: bool, t: Tirada, index: nat, c: CartaSeleccionada)
    ensures var line := CopyLine(catalog, modoLibre, t, index, c);
      && HasPrefix(line, IntToString(index + 1) + ". ")
      && (c.invertida ==> HasSuffix(line, " (Invertida)"))
  {
    var head := IntToString(index + 1) + ". ";
    var slot := if modoLibre then "" else SlotName(t, c.posicion) + ": ";
    var tail := if c.invertida then " (Invertida)" else "";
    Frame(head, slot, CardNameById(catalog, c.carta), tail);
  }

  lemma Frame(head: string, a: string, b: string, tail: string)
    ensures HasPrefix(head + a + b + tail, head) && HasSuffix(head + a + b + tail, tail)
  {
    var line := head + a + b + tail;
    assert line[..|head|] == head;
    assert line[|line| - |tail|..] == tail;
  }

  /**
   * The copied text splits back into one line per card, in position order,
   * each numbered from 1 and marked " (Invertida)" when the card is reversed.
   */
  lemma CopyTextLines(catalog: seq<CardName>, s: SessionState)
    requires Invariant(s) && s.tirada.Some? && |s.cartas| >= 1 && SingleLineNames(catalog, s)
    ensures var lines := Split(CopyText(catalog, s), '\n');
      var sorted := RenderSort(s).cartas;
      && lines == CopyLines(catalog, s.modoLibre, s.tirada.value, sorted)
      && |lines| == |s.cartas|
      && (forall i :: 0 <= i < |lines| ==> HasPrefix(lines[i], IntToString(i + 1) + ". "))
      && (forall i :: 0 <= i < |lines| && sorted[i].invertida ==> HasSuffix(lines[i], " (Invertida)"))
      && (forall i, j :: 0 <= i < j < |lines| ==> sorted[i].posicion < sorted[j].posicion)
  {
    var sorted := RenderSort(s).cartas;
    var t := s.tirada.value;
    var lines := CopyLines(catalog, s.modoLibre, t, sorted);
    RenderSortOrders(s);
    forall i | 0 <= i < |lines|
      ensures '\n' !in lines[i]
    {
      assert sorted[i] in multiset(s.cartas);
      CopyLineSingle(catalog, s, i, sorted[i]);
    }
    SplitJoin(lines, '\n');
    forall i | 0 <= i < |lines|
      ensures HasPrefix(lines[i], IntToString(i + 1) + ". ")
      ensures sorted[i].invertida ==> HasSuffix(lines[i], " (Invertida)")
    {
      CopyLinesShape(catalog, s.modoLibre, t, sorted, i);
    }
  }

  // ---------------------------------------------------------------------------
  // The view's state, updated in place beside the page's

  class CartaSelector {
    const session: Session
    const catalog: seq<CardName>
    var posicionActual: int
    var categoria: Option<Categoria>
    var letra: string
    var palo: string
    var pendiente: Option<Pendiente>

    function Selector(): SelectorState
      reads this
    {
      SelectorState(posicionActual, categoria, letra, palo, pendiente)
    }

    function Current(): Reading
      reads this, session
    {
      Reading(session.State(), Selector())
    }

    predicate Valid()
      reads this, session
    {
      session.Valid() && OnScreen(session.State())
    }

    constructor (session: Session, catalog: seq<CardName>)
      requires session.Valid() && OnScreen(session.State())
      ensures this.session == session && this.catalog == catalog
      ensures Selector() == Mounted && Valid()
    {
      this.session := session;
      this.catalog := catalog;
      posicionActual := 1;
      categoria := None;
      letra := "";
      palo := "";
      pendiente := None;
    }

    /** The slot the next card goes to. */
    method ObtenerSiguientePosicion() returns (pos: int)
      requires Valid()
      ensures pos == Next(Current())
    {
      if session.modoLibre {
        return |session.cartas| + 1;
      }
      var n := session.tirada.value.numeroCartas;
      var i := 1;
      while i <= n
        invariant 1 <= i && (i <= n + 1 || n < 1)
        invariant forall q :: 1 <= q < i ==> Occupied(session.cartas, q)
      {
        if !Occupied(session.cartas, i) {
          return i;
        }
        i := i + 1;
      }
      return posicionActual;
    }

    method HandleCartaSelect(id: string)
      requires Valid()
      modifies this, session
      ensures Valid() && Current() == Handle(catalog, old(Current()), CardClicked(id))
    {
      var pos := ObtenerSiguientePosicion();
      if session.baraja == Tradicional {
        pendiente := Some(Pendiente(id, CardNameById(catalog, id), pos));
      } else {
        var n := session.tirada.value.numeroCartas;
        var libre := session.modoLibre;
        session.HandleCartaAdd(CartaSeleccionada(pos, id, false, session.baraja));
        if !libre && pos < n {
          posicionActual := pos + 1;
        }
      }
      if categoria == Some(Menores) {
        palo := "";
      } else {
        letra := "";
      }
    }

    /** Places the pending card, upright or reversed, at the slot the dialog names. */
    method ConfirmarCartaConPosicion(invertida: bool)
      requires Valid()
      modifies this, session
      ensures Valid() && Current() == Handle(catalog, old(Current()), Confirmed(invertida))
    {
      if pendiente.None? {
        return;
      }
      var p := pendiente.value;
      var pos := ObtenerSiguientePosicion();
      var n := session.tirada.value.numeroCartas;
      var libre := session.modoLibre;
      session.HandleCartaAdd(CartaSeleccionada(pos, p.id, invertida, session.baraja));
      if !libre && pos < n {
        posicionActual := pos + 1;
      }
      pendiente := None;
    }

    method CancelarSeleccionCarta()
      requires Valid()
      modifies this
      ensures Valid() && Current() == Handle(catalog, old(Current()), Cancelled)
    {
      pendiente := None;
    }

    method HandleDoubleClick(p: int)
      requires Valid()
      modifies session
      ensures Valid() && Current() == Handle(catalog, old(Current()), DoubleClicked(p))
    {
      if session.baraja == Tradicional {
        session.HandleCartaToggle(p);
      }
    }

    method ElegirCategoria(c: Categoria)
      requires Valid()
      modifies this
      ensures Valid() && Current() == Handle(catalog, old(Current()), CategoryChosen(c))
    {
      categoria := Some(c);
      letra := "";
      palo := "";
    }

    method ElegirLetra(l: string)
      requires Valid()
      modifies this
      ensures Valid() && Current() == Handle(catalog, old(Current()), LetterChosen(l))
    {
      letra := l;
    }

    method ElegirPalo(p: string)
      requires Valid()
      modifies this
      ensures Valid() && Current() == Handle(catalog, old(Current()), SuitChosen(p))
    {
      palo := p;
    }

    method VolverFiltro()
      requires Valid()
      modifies this
      ensures Valid() && Current() == Handle(catalog, old(Current()), FilterBack)
    {
      if palo != "" {
        palo := "";
      } else if letra != "" {
        letra := "";
      } else if categoria.Some? {
        categoria := None;
      }
    }

    /** Sorts the page's cards in place by position and returns the text the copy button copies. */
    method CopiarListaCartas() returns (text: string)
      requires Valid()
      modifies session
      ensures Valid() && session.State() == RenderSort(old(session.State()))
      ensures text == CopyText(catalog, old(session.State()))
    {
      ghost var before := session.State();
      session.RenderCards();
      RenderSortOrders(before);
      SortByOfSorted(session.cartas, PositionOf);
      text := Join(CopyLines(catalog, session.modoLibre, session.tirada.value, session.cartas), '\n');
    }
  }
}
