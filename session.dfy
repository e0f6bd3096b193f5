/**
 * The Tarot reading session owned by the Tarot page (and its older copy, the
 * index page): which view is shown, the chosen layout, the deck, the cards
 * placed so far and whether the reading is free-form.
 *
 * Every handler is a transition function on `SessionState`; the class
 * `Session` holds the same state in fields and its methods perform the
 * handlers' updates in place. `Invariant` is kept by every handler whenever the
 * control that calls it is on screen (`Enabled`).
 */
module ReadingSession {
  import opened Wrappers
  import opened Text
  import opened Sorting
  import opened TarotTypes

  /** The pages' views; `Opciones` is the Tarot page's `tarotOptions` and the index page's `inicio`. */
  datatype View = Opciones | SeleccionLibre | Tiradas | Cartas | Interpretacion | SeleccionBarajaLibre

  /** The two pages that own a session; they differ only in the back button. */
  datatype Page = TarotPage | IndexPage

  datatype SessionState = SessionState(
    vista: View,
    tirada: Option<Tirada>,
    baraja: Baraja,
    cartas: seq<CartaSeleccionada>,
    modoLibre: bool)

  const Initial: SessionState := SessionState(Opciones, None, Tradicional, [], false)

  /** The user actions that reach the session, one per handler, plus the card view's render. */
  datatype Event =
    | FreeChosen
    | LayoutsChosen
    | FreeDeckChosen(b: Baraja)
    | LayoutChosen(t: Tirada, b: Baraja)
    | DeckChanged(b: Baraja)
    | CardAdded(c: CartaSeleccionada)
    | CardToggled(p: int)
    | UndoPressed
    | ClearPressed
    | BackPressed
    | InterpretPressed
    | CardsRendered

  function PositionOf(c: CartaSeleccionada): int { c.posicion }

  predicate Occupied(cartas: seq<CartaSeleccionada>, p: int)
  {
    exists i :: 0 <= i < |cartas| && cartas[i].posicion == p
  }

  predicate DistinctPositions(cartas: seq<CartaSeleccionada>)
  {
    forall i, j :: 0 <= i < j < |cartas| ==> cartas[i].posicion != cartas[j].posicion
  }

  /** The free-form numbering: the i-th card holds position i + 1. */
  predicate Dense(cartas: seq<CartaSeleccionada>)
  {
    forall i :: 0 <= i < |cartas| ==> cartas[i].posicion == i + 1
  }

  /**
   * The shape of a free-form layout holding `n` cards: the base layout's
   * names, one slot per counted card, the base slot first and then the
   * generated slots "Carta 2", "Carta 3", ...; at least as many slots as cards.
   */
  predicate FreeLayout(t: Tirada, n: nat)
  {
    && t.id == TiradaLibreBase.id
    && t.nombre == TiradaLibreBase.nombre
    && t.descripcion == TiradaLibreBase.descripcion
    && |t.posiciones| == t.numeroCartas
    && 1 <= t.numeroCartas
    && n <= t.numeroCartas
    && t.posiciones[0] == BaseSlot
    && forall i :: 1 <= i < |t.posiciones| ==> t.posiciones[i] == FreeSlot(i + 1)
  }

  predicate Invariant(s: SessionState)
  {
    && DistinctPositions(s.cartas)
    && ((s.vista == Cartas || s.vista == Interpretacion) ==> s.tirada.Some?)
    && (s.vista != Cartas && s.vista != Interpretacion ==> s.cartas == [])
    && (s.modoLibre ==>
          && (s.vista == Cartas || s.vista == Interpretacion || s.vista == SeleccionBarajaLibre)
          && s.tirada.Some?
          && FreeLayout(s.tirada.value, |s.cartas|)
          && Dense(s.cartas))
  }

  // ---------------------------------------------------------------------------
  // Handlers

  function SelectFree(s: SessionState): SessionState
  {
    s.(modoLibre := true, tirada := Some(TiradaLibreBase.(numeroCartas := 1)), cartas := [],
       vista := SeleccionBarajaLibre)
  }

  function SelectLayouts(s: SessionState): SessionState
  {
    s.(modoLibre := false, vista := Tiradas)
  }

  function SelectFreeDeck(s: SessionState, b: Baraja): SessionState
  {
    s.(baraja := b, vista := Cartas)
  }

  function SelectLayout(s: SessionState, t: Tirada, b: Baraja): SessionState
  {
    s.(tirada := Some(t), baraja := b, cartas := [], vista := Cartas)
  }

  function ChangeDeck(s: SessionState, b: Baraja): SessionState
  {
    if s.modoLibre then s.(baraja := b, cartas := [], tirada := Some(TiradaLibreBase.(numeroCartas := 1)))
    else s.(baraja := b, cartas := [])
  }

  /** The free-form layout grown by one generated slot (absent layout: the base layout's slots). */
  function GrowFreeLayout(prev: Option<Tirada>): Tirada
  {
    var num := if prev.Some? then prev.value.numeroCartas else 0;
    var base := prev.GetOr(TiradaLibreBase);
    base.(numeroCartas := num + 1, posiciones := base.posiciones + [FreeSlot(num + 1)])
  }

  /** `slice(0, n)`: the first `n` elements, or all of them when there are fewer. */
  function Take<T>(s: seq<T>, n: nat): seq<T>
  {
    if n <= |s| then s[..n] else s
  }

  function ShrinkFreeLayout(prev: Option<Tirada>, n: nat): Tirada
  {
    var base := prev.GetOr(TiradaLibreBase);
    base.(numeroCartas := n, posiciones := Take(base.posiciones, n))
  }

  /** A fixed layout's placement: replaces every card at `c`'s position, or appends `c`. */
  function ReplaceOrAppend(cartas: seq<CartaSeleccionada>, c: CartaSeleccionada): seq<CartaSeleccionada>
  {
    if Occupied(cartas, c.posicion) then
      seq(|cartas|, i requires 0 <= i < |cartas| => if cartas[i].posicion == c.posicion then c else cartas[i])
    else cartas + [c]
  }

  function AddCard(s: SessionState, c: CartaSeleccionada): SessionState
  {
    if s.modoLibre then
      s.(cartas := s.cartas + [c.(posicion := |s.cartas| + 1)], tirada := Some(GrowFreeLayout(s.tirada)))
    else s.(cartas := ReplaceOrAppend(s.cartas, c))
  }

  function ToggleAt(cartas: seq<CartaSeleccionada>, p: int): seq<CartaSeleccionada>
  {
    seq(|cartas|, i requires 0 <= i < |cartas| =>
      if cartas[i].posicion == p then cartas[i].(invertida := !cartas[i].invertida) else cartas[i])
  }

  function ToggleCard(s: SessionState, p: int): SessionState
  {
    s.(cartas := ToggleAt(s.cartas, p))
  }

  function UndoLast(s: SessionState): SessionState
  {
    if |s.cartas| == 0 then s
    else
      var nuevas := s.cartas[..|s.cartas| - 1];
      if !s.modoLibre then s.(cartas := nuevas)
      else if |nuevas| == 0 then s.(cartas := nuevas, tirada := Some(TiradaLibreBase))
      else s.(cartas := nuevas, tirada := Some(ShrinkFreeLayout(s.tirada, |nuevas|)))
  }

  function ClearCards(s: SessionState): SessionState
  {
    if s.modoLibre then s.(cartas := [], tirada := Some(TiradaLibreBase)) else s.(cartas := [])
  }

  function Back(page: Page, s: SessionState): SessionState
  {
    match s.vista
    case Cartas =>
      s.(vista := if s.modoLibre then SeleccionBarajaLibre else Tiradas, cartas := [])
    case Interpretacion => s.(vista := Cartas)
    case SeleccionBarajaLibre =>
      s.(vista := Opciones, modoLibre := false, baraja := Tradicional, tirada := None)
    case Tiradas => s.(vista := Opciones, tirada := None, cartas := [])
    case _ =>
      if page == TarotPage then s
      else s.(vista := Opciones, tirada := None, cartas := [])
  }

  /** Whether the Tarot page's back button leaves the page for the application's root. */
  predicate LeavesPage(page: Page, s: SessionState)
  {
    page == TarotPage && s.vista == Opciones
  }

  function Interpret(s: SessionState): SessionState
  {
    s.(vista := Interpretacion)
  }

  predicate CanInterpret(s: SessionState)
  {
    if s.modoLibre then |s.cartas| > 0
    else s.tirada.Some? && |s.cartas| == s.tirada.value.numeroCartas
  }

  /** The card view sorts the cards array it is given by position, in place, on every render. */
  function RenderSort(s: SessionState): SessionState
  {
    s.(cartas := SortBy(s.cartas, PositionOf))
  }

  function Apply(page: Page, s: SessionState, e: Event): SessionState
  {
    match e
    case FreeChosen => SelectFree(s)
    case LayoutsChosen => SelectLayouts(s)
    case FreeDeckChosen(b) => SelectFreeDeck(s, b)
    case LayoutChosen(t, b) => SelectLayout(s, t, b)
    case DeckChanged(b) => ChangeDeck(s, b)
    case CardAdded(c) => AddCard(s, c)
    case CardToggled(p) => ToggleCard(s, p)
    case UndoPressed => UndoLast(s)
    case ClearPressed => ClearCards(s)
    case BackPressed => Back(page, s)
    case InterpretPressed => Interpret(s)
    case CardsRendered => RenderSort(s)
  }

  /** Whether the control that raises `e` is on screen in state `s`. */
  predicate Enabled(s: SessionState, e: Event)
  {
    match e
    case FreeChosen => s.vista == Opciones
    case LayoutsChosen => s.vista == Opciones
    case FreeDeckChosen(_) => s.vista == SeleccionBarajaLibre && s.modoLibre
    case LayoutChosen(_, _) => s.vista == Tiradas
    case InterpretPressed => s.vista == Cartas && s.tirada.Some? && CanInterpret(s)
    case BackPressed => true
    case _ => s.vista == Cartas && s.tirada.Some?
  }

  function Run(page: Page, s: SessionState, events: seq<Event>): SessionState
    decreases |events|
  {
    if events == [] then s else Run(page, Apply(page, s, events[0]), events[1..])
  }

  predicate AllEnabled(page: Page, s: SessionState, events: seq<Event>)
    decreases |events|
  {
    events == [] || (Enabled(s, events[0]) && AllEnabled(page, Apply(page, s, events[0]), events[1..]))
  }

  // ---------------------------------------------------------------------------
  // Properties of the handlers

  lemma {:induction false} ReplaceOrAppendPlaces(cartas: seq<CartaSeleccionada>, c: CartaSeleccionada)
    requires DistinctPositions(cartas)
    ensures var r := ReplaceOrAppend(cartas, c);
      && DistinctPositions(r)
      && Occupied(r, c.posicion)
      && (forall i :: 0 <= i < |r| && r[i].posicion == c.posicion ==> r[i] == c)
      && (forall p :: p != c.posicion ==> (Occupied(r, p) <==> Occupied(cartas, p)))
      && (forall i :: 0 <= i < |cartas| && cartas[i].posicion != c.posicion ==> r[i] == cartas[i])
      && |r| == |cartas| + (if Occupied(cartas, c.posicion) then 0 else 1)
      && (Occupied(cartas, c.posicion) ==> forall i :: 0 <= i < |r| ==> r[i].posicion == cartas[i].posicion)
      && (!Occupied(cartas, c.posicion) ==> r == cartas + [c])
  {
    var r := ReplaceOrAppend(cartas, c);
    if Occupied(cartas, c.posicion) {
      var k :| 0 <= k < |cartas| && cartas[k].posicion == c.posicion;
      assert r[k] == c;
      forall p | p != c.posicion
        ensures Occupied(r, p) <==> Occupied(cartas, p)
      {
        if Occupied(cartas, p) {
          var j :| 0 <= j < |cartas| && cartas[j].posicion == p;
          assert r[j] == cartas[j];
        }
      }
    } else {
      assert r[|cartas|] == c;
      forall p | p != c.posicion
        ensures Occupied(r, p) <==> Occupied(cartas, p)
      {
        if Occupied(cartas, p) {
          var j :| 0 <= j < |cartas| && cartas[j].posicion == p;
          assert r[j] == cartas[j];
        }
      }
    }
  }

  /**
   * A fixed layout's placement holds one card per position: the new card takes
   * its position, replacing the card there if any, and every other position
   * keeps its card.
   */
  lemma AddFixedPlaces(s: SessionState, c: CartaSeleccionada)
    requires Invariant(s) && !s.modoLibre
    ensures var r := AddCard(s, c).cartas;
      && DistinctPositions(r)
      && Occupied(r, c.posicion)
      && (forall i :: 0 <= i < |r| && r[i].posicion == c.posicion ==> r[i] == c)
      && (forall p :: p != c.posicion ==> (Occupied(r, p) <==> Occupied(s.cartas, p)))
      && |r| == |s.cartas| + (if Occupied(s.cartas, c.posicion) then 0 else 1)
  {
    ReplaceOrAppendPlaces(s.cartas, c);
  }

  /**
   * A free-form placement ignores the position it is given: the card is
   * appended at the next position and the layout grows by one slot named after it.
   */
  lemma AddFreeAppends(s: SessionState, c: CartaSeleccionada, q: int)
    requires Invariant(s) && Enabled(s, CardAdded(c)) && s.modoLibre
    ensures AddCard(s, c) == AddCard(s, c.(posicion := q))
    ensures var r := AddCard(s, c);
      && r.cartas == s.cartas + [c.(posicion := |s.cartas| + 1)]
      && r.tirada.Some?
      && r.tirada.value.numeroCartas == s.tirada.value.numeroCartas + 1
      && r.tirada.value.posiciones
         == s.tirada.value.posiciones + [FreeSlot(s.tirada.value.numeroCartas + 1)]
      && Invariant(r)
  {
    AddPreserves(s, c);
  }

  lemma AddPreserves(s: SessionState, c: CartaSeleccionada)
    requires Invariant(s) && Enabled(s, CardAdded(c))
    ensures Invariant(AddCard(s, c))
  {
    if !s.modoLibre {
      ReplaceOrAppendPlaces(s.cartas, c);
    } else {
      var r := AddCard(s, c);
      var t := r.tirada.value;
      assert t.posiciones[|t.posiciones| - 1] == FreeSlot(|t.posiciones|);
      assert forall i :: 1 <= i < |t.posiciones| - 1 ==> t.posiciones[i] == s.tirada.value.posiciones[i];
    }
  }

  /** Reversing the card at `p` twice gives the cards back; nothing but `p`'s orientation changes. */
  lemma ToggleTwice(s: SessionState, p: int)
    ensures ToggleCard(ToggleCard(s, p), p) == s
    ensures var r := ToggleCard(s, p).cartas;
      && |r| == |s.cartas|
      && forall i :: 0 <= i < |r| ==>
           r[i].posicion == s.cartas[i].posicion && r[i].carta == s.cartas[i].carta
           && r[i].baraja == s.cartas[i].baraja
           && (r[i].invertida == s.cartas[i].invertida <==> s.cartas[i].posicion != p)
  {
    assert ToggleAt(ToggleAt(s.cartas, p), p) == s.cartas;
  }

  /**
   * Adding a card and undoing restores the cards (for a fixed layout, when the
   * position was free); a free-form layout is restored exactly when it had no
   * stale slots, i.e. as many slots as cards (at least one).
   */
  lemma AddThenUndo(s: SessionState, c: CartaSeleccionada)
    requires Invariant(s) && s.vista == Cartas && s.tirada.Some?
    requires s.modoLibre || !Occupied(s.cartas, c.posicion)
    ensures UndoLast(AddCard(s, c)).cartas == s.cartas
    ensures s.modoLibre ==>
      (UndoLast(AddCard(s, c)) == s <==> s.tirada.value.numeroCartas == if |s.cartas| == 0 then 1 else |s.cartas|)
  {
    var a := AddCard(s, c);
    assert a.cartas[..|a.cartas| - 1] == s.cartas;
    if s.modoLibre {
      var t := s.tirada.value;
      var u := UndoLast(a);
      if |s.cartas| == 0 {
        if t.numeroCartas == 1 {
          assert t.posiciones == [BaseSlot];
          assert t == TiradaLibreBase;
        }
      } else {
        var n := |s.cartas|;
        var grown := a.tirada.value;
        assert u.tirada.value.numeroCartas == n;
        if t.numeroCartas == n {
          assert grown.posiciones[..n] == t.posiciones;
        }
      }
    }
  }

  /** Undo removes the last card placed and keeps a free-form layout's slots in step. */
  lemma UndoDropsLast(s: SessionState)
    requires Invariant(s) && |s.cartas| > 0
    ensures var r := UndoLast(s);
      && r.cartas == s.cartas[..|s.cartas| - 1]
      && (s.modoLibre ==> r.tirada.value.numeroCartas == (if |r.cartas| == 0 then 1 else |r.cartas|))
      && (!s.modoLibre ==> r.tirada == s.tirada)
  {
  }

  lemma UndoPreserves(s: SessionState)
    requires Invariant(s)
    ensures Invariant(UndoLast(s))
  {
    var r := UndoLast(s);
    if s.modoLibre && |s.cartas| > 1 {
      var t := r.tirada.value;
      assert t.posiciones == s.tirada.value.posiciones[..|s.cartas| - 1];
    }
  }

  /**
   * With a fixed layout whose cards sit at distinct positions in 1..N, the
   * reading can be interpreted exactly when every position 1..N holds a card.
   */
  lemma {:induction false} CanInterpretIffAllPlaced(s: SessionState)
    requires !s.modoLibre && s.tirada.Some? && s.tirada.value.numeroCartas >= 0
    requires DistinctPositions(s.cartas)
    requires forall i :: 0 <= i < |s.cartas| ==> 1 <= s.cartas[i].posicion <= s.tirada.value.numeroCartas
    ensures CanInterpret(s) <==> forall p :: 1 <= p <= s.tirada.value.numeroCartas ==> Occupied(s.cartas, p)
  {
    var n := s.tirada.value.numeroCartas;
    var ps := Positions(s.cartas);
    var range := Range(1, n);
    PositionsCard(s.cartas);
    RangeCard(1, n);
    assert ps <= range by {
      forall p | p in ps ensures p in range {
        PositionsMembership(s.cartas, p);
      }
    }
    if CanInterpret(s) {
      SubsetSameSize(ps, range);
      forall p | 1 <= p <= n ensures Occupied(s.cartas, p) {
        PositionsMembership(s.cartas, p);
      }
    }
    if forall p :: 1 <= p <= n ==> Occupied(s.cartas, p) {
      assert range <= ps by {
        forall p | p in range ensures p in ps {
          PositionsMembership(s.cartas, p);
        }
      }
      assert ps == range;
    }
  }

  /** In a free-form reading one card is enough to interpret. */
  lemma CanInterpretFree(s: SessionState)
    requires s.modoLibre
    ensures CanInterpret(s) <==> s.cartas != []
  {
  }

  function Positions(cartas: seq<CartaSeleccionada>): set<int>
  {
    if cartas == [] then {} else Positions(cartas[..|cartas| - 1]) + {cartas[|cartas| - 1].posicion}
  }

  lemma {:induction false} PositionsMembership(cartas: seq<CartaSeleccionada>, p: int)
    ensures p in Positions(cartas) <==> Occupied(cartas, p)
  {
    if cartas != [] {
      var init := cartas[..|cartas| - 1];
      PositionsMembership(init, p);
      if Occupied(init, p) {
        var j :| 0 <= j < |init| && init[j].posicion == p;
        assert cartas[j].posicion == p;
      }
      if Occupied(cartas, p) && cartas[|cartas| - 1].posicion != p {
        var j :| 0 <= j < |cartas| && cartas[j].posicion == p;
        assert init[j].posicion == p;
      }
    }
  }

  lemma {:induction false} PositionsCard(cartas: seq<CartaSeleccionada>)
    requires DistinctPositions(cartas)
    ensures |Positions(cartas)| == |cartas|
  {
    if cartas != [] {
      var init := cartas[..|cartas| - 1];
      PositionsCard(init);
      PositionsMembership(init, cartas[|cartas| - 1].posicion);
    }
  }

  function Range(lo: int, hi: int): (r: set<int>)
    ensures forall p :: p in r <==> lo <= p <= hi
    decreases hi - lo
  {
    if hi < lo then {} else Range(lo, hi - 1) + {hi}
  }

  lemma {:induction false} RangeCard(lo: int, hi: int)
    ensures |Range(lo, hi)| == if hi < lo then 0 else hi - lo + 1
    decreases hi - lo
  {
    if lo <= hi {
      RangeCard(lo, hi - 1);
      assert hi !in Range(lo, hi - 1);
    }
  }

  lemma SubsetSameSize(a: set<int>, b: set<int>)
    requires a <= b && |a| == |b|
    ensures a == b
  {
    var rest := b - a;
    assert a + rest == b;
    assert a * rest == {};
    assert |rest| == 0;
    assert rest == {};
  }

  /**
   * The render's sort leaves a free-form reading's cards as they are and
   * orders a fixed layout's cards by strictly increasing position.
   */
  lemma RenderSortOrders(s: SessionState)
    requires Invariant(s)
    ensures var r := RenderSort(s).cartas;
      && multiset(r) == multiset(s.cartas)
      && StrictlySortedBy(r, PositionOf)
      && (s.modoLibre ==> r == s.cartas)
  {
    SortByPermutation(s.cartas, PositionOf);
    SortByStrict(s.cartas, PositionOf);
    if s.modoLibre {
      SortByOfSorted(s.cartas, PositionOf);
    }
  }

  /**
   * After the card view has rendered, undo removes the card at the highest
   * position rather than the card placed last.
   */
  lemma UndoAfterRenderRemovesHighest(s: SessionState)
    requires Invariant(s) && |s.cartas| > 0
    ensures exists k :: (0 <= k < |s.cartas|
      && (forall i :: 0 <= i < |s.cartas| ==> s.cartas[i].posicion <= s.cartas[k].posicion)
      && multiset(UndoLast(RenderSort(s)).cartas) + multiset{s.cartas[k]} == multiset(s.cartas))
  {
    RenderSortOrders(s);
    var sorted := RenderSort(s).cartas;
    assert UndoLast(RenderSort(s)).cartas == sorted[..|sorted| - 1];
    var k := LastOfSortedPermutation(s.cartas, sorted);
    assert multiset(UndoLast(RenderSort(s)).cartas) + multiset{s.cartas[k]} == multiset(s.cartas);
  }

  /** The last card of a sorted rearrangement is a card of the original with the highest position. */
  lemma LastOfSortedPermutation(cartas: seq<CartaSeleccionada>, sorted: seq<CartaSeleccionada>) returns (k: nat)
    requires |sorted| > 0 && multiset(sorted) == multiset(cartas)
    requires StrictlySortedBy(sorted, PositionOf)
    ensures k < |cartas| && cartas[k] == sorted[|sorted| - 1]
    ensures forall i :: 0 <= i < |cartas| ==> cartas[i].posicion <= cartas[k].posicion
    ensures multiset(sorted[..|sorted| - 1]) + multiset{cartas[k]} == multiset(cartas)
  {
    var top := sorted[|sorted| - 1];
    assert sorted == sorted[..|sorted| - 1] + [top];
    assert top in multiset(cartas) by {
      assert top in multiset(sorted);
    }
    k :| 0 <= k < |cartas| && cartas[k] == top;
    forall i | 0 <= i < |cartas|
      ensures cartas[i].posicion <= top.posicion
    {
      assert cartas[i] in multiset(sorted);
      var j :| 0 <= j < |sorted| && sorted[j] == cartas[i];
      assert PositionOf(sorted[j]) <= PositionOf(top);
    }
  }

  /** Leaving the interpretation and interpreting again returns to the same session. */
  lemma BackFromInterpretation(page: Page, s: SessionState)
    requires s.vista == Interpretacion
    ensures Interpret(Back(page, s)) == s
    ensures CanInterpret(Back(page, s)) == CanInterpret(s)
  {
  }

  /** The two pages' back buttons differ only in the options view and the unused free-selection view. */
  lemma BackPagesAgree(s: SessionState)
    requires s.vista != Opciones && s.vista != SeleccionLibre
    ensures Back(TarotPage, s) == Back(IndexPage, s)
  {
  }

  /** Back from the card view discards the placed cards and returns to where the layout or deck was chosen. */
  lemma BackFromCards(page: Page, s: SessionState)
    requires Invariant(s) && s.vista == Cartas
    ensures var r := Back(page, s);
      && r.cartas == []
      && r.vista == (if s.modoLibre then SeleccionBarajaLibre else Tiradas)
      && r.tirada == s.tirada
      && Invariant(r)
  {
  }

  /** Every handler keeps the invariant when its control is on screen. */
  lemma StepPreserves(page: Page, s: SessionState, e: Event)
    requires Invariant(s) && Enabled(s, e)
    ensures Invariant(Apply(page, s, e))
  {
    match e
    case CardAdded(c) => AddPreserves(s, c);
    case UndoPressed => UndoPreserves(s);
    case CardsRendered =>
      RenderSortOrders(s);
      var r := RenderSort(s).cartas;
      assert DistinctPositions(r);
    case _ =>
  }

  /** Every session reached from the initial one through on-screen controls satisfies the invariant. */
  lemma {:induction false} RunPreserves(page: Page, s: SessionState, events: seq<Event>)
    requires Invariant(s) && AllEnabled(page, s, events)
    ensures Invariant(Run(page, s, events))
    decreases |events|
  {
    if events != [] {
      StepPreserves(page, s, events[0]);
      RunPreserves(page, Apply(page, s, events[0]), events[1..]);
    }
  }

  lemma InitialValid()
    ensures Invariant(Initial)
  {
  }

  /**
   * A free-form layout can hold more slots than cards: going back to the deck
   * choice clears the cards but keeps the grown layout.
   */
  lemma StaleFreeLayout(c: CartaSeleccionada)
    ensures var s := Run(TarotPage, Initial,
      [FreeChosen, FreeDeckChosen(Osho), CardAdded(c), CardAdded(c), BackPressed, FreeDeckChosen(Osho)]);
      && AllEnabled(TarotPage, Initial,
           [FreeChosen, FreeDeckChosen(Osho), CardAdded(c), CardAdded(c), BackPressed, FreeDeckChosen(Osho)])
      && s.vista == Cartas && s.cartas == [] && s.tirada.Some? && s.tirada.value.numeroCartas == 3
  {
    var s1 := SelectFree(Initial);
    var s2 := SelectFreeDeck(s1, Osho);
    var s3 := AddCard(s2, c);
    var s4 := AddCard(s3, c);
    var s5 := Back(TarotPage, s4);
    var s6 := SelectFreeDeck(s5, Osho);
    assert s6.tirada.value.numeroCartas == 3;
    var evs := [FreeChosen, FreeDeckChosen(Osho), CardAdded(c), CardAdded(c), BackPressed, FreeDeckChosen(Osho)];
    assert evs[1..] == [FreeDeckChosen(Osho), CardAdded(c), CardAdded(c), BackPressed, FreeDeckChosen(Osho)];
    assert evs[1..][1..] == [CardAdded(c), CardAdded(c), BackPressed, FreeDeckChosen(Osho)];
    assert evs[1..][1..][1..] == [CardAdded(c), BackPressed, FreeDeckChosen(Osho)];
    assert evs[1..][1..][1..][1..] == [BackPressed, FreeDeckChosen(Osho)];
    assert evs[1..][1..][1..][1..][1..] == [FreeDeckChosen(Osho)];
    assert Run(TarotPage, s5, [FreeDeckChosen(Osho)]) == s6;
    assert Run(TarotPage, s4, [BackPressed, FreeDeckChosen(Osho)]) == s6;
    assert Run(TarotPage, s3, [CardAdded(c), BackPressed, FreeDeckChosen(Osho)]) == s6;
    assert Run(TarotPage, s2, [CardAdded(c), CardAdded(c), BackPressed, FreeDeckChosen(Osho)]) == s6;
    assert Run(TarotPage, s1, evs[1..]) == s6;
    assert AllEnabled(TarotPage, s5, [FreeDeckChosen(Osho)]);
    assert AllEnabled(TarotPage, s4, [BackPressed, FreeDeckChosen(Osho)]);
    assert AllEnabled(TarotPage, s3, [CardAdded(c), BackPressed, FreeDeckChosen(Osho)]);
    assert AllEnabled(TarotPage, s2, [CardAdded(c), CardAdded(c), BackPressed, FreeDeckChosen(Osho)]);
    assert AllEnabled(TarotPage, s1, evs[1..]);
  }

  // ---------------------------------------------------------------------------
  // The page's state, updated in place by its handlers

  class Session {
    const page: Page
    var vista: View
    var tirada: Option<Tirada>
    var baraja: Baraja
    var cartas: seq<CartaSeleccionada>
    var modoLibre: bool

    function State(): SessionState
      reads this
    {
      SessionState(vista, tirada, baraja, cartas, modoLibre)
    }

    predicate Valid()
      reads this
    {
      Invariant(State())
    }

    constructor (page: Page)
      ensures this.page == page && State() == Initial && Valid()
    {
      this.page := page;
      vista := Opciones;
      tirada := None;
      baraja := Tradicional;
      cartas := [];
      modoLibre := false;
    }

    method HandleSeleccionLibre()
      requires Valid() && Enabled(State(), FreeChosen)
      modifies this
      ensures Valid() && State() == SelectFree(old(State()))
    {
      modoLibre := true;
      tirada := Some(TiradaLibreBase.(numeroCartas := 1));
      cartas := [];
      vista := SeleccionBarajaLibre;
    }

    method HandleSeleccionTiradas()
      requires Valid() && Enabled(State(), LayoutsChosen)
      modifies this
      ensures Valid() && State() == SelectLayouts(old(State()))
    {
      modoLibre := false;
      vista := Tiradas;
    }

    method HandleBarajaLibreSelect(b: Baraja)
      requires Valid() && Enabled(State(), FreeDeckChosen(b))
      modifies this
      ensures Valid() && State() == SelectFreeDeck(old(State()), b)
    {
      baraja := b;
      vista := Cartas;
    }

    method HandleTiradaSelect(t: Tirada, b: Baraja)
      requires Valid() && Enabled(State(), LayoutChosen(t, b))
      modifies this
      ensures Valid() && State() == SelectLayout(old(State()), t, b)
    {
      tirada := Some(t);
      baraja := b;
      cartas := [];
      vista := Cartas;
    }

    method HandleCambiarBaraja(b: Baraja)
      requires Valid() && Enabled(State(), DeckChanged(b))
      modifies this
      ensures Valid() && State() == ChangeDeck(old(State()), b)
    {
      baraja := b;
      cartas := [];
      if modoLibre {
        tirada := Some(TiradaLibreBase.(numeroCartas := 1));
      }
    }

    method HandleCartaAdd(c: CartaSeleccionada)
      requires Valid() && Enabled(State(), CardAdded(c))
      modifies this
      ensures Valid() && State() == AddCard(old(State()), c)
    {
      ghost var before := State();
      if modoLibre {
        var nueva := c.(posicion := |cartas| + 1);
        cartas := cartas + [nueva];
        tirada := Some(GrowFreeLayout(tirada));
      } else {
        cartas := ReplaceOrAppend(cartas, c);
      }
      StepPreserves(page, before, CardAdded(c));
    }

    method HandleCartaToggle(p: int)
      requires Valid() && Enabled(State(), CardToggled(p))
      modifies this
      ensures Valid() && State() == ToggleCard(old(State()), p)
    {
      cartas := ToggleAt(cartas, p);
    }

    method HandleDeshacerUltimaCarta()
      requires Valid() && Enabled(State(), UndoPressed)
      modifies this
      ensures Valid() && State() == UndoLast(old(State()))
    {
      ghost var before := State();
      if |cartas| > 0 {
        var nuevas := cartas[..|cartas| - 1];
        cartas := nuevas;
        if modoLibre {
          if |nuevas| == 0 {
            tirada := Some(TiradaLibreBase);
          } else {
            tirada := Some(ShrinkFreeLayout(tirada, |nuevas|));
          }
        }
      }
      StepPreserves(page, before, UndoPressed);
    }

    method HandleLimpiarCartas()
      requires Valid() && Enabled(State(), ClearPressed)
      modifies this
      ensures Valid() && State() == ClearCards(old(State()))
    {
      cartas := [];
      if modoLibre {
        tirada := Some(TiradaLibreBase);
      }
    }

    /** Returns whether the page hands over to the application's root. */
    method HandleVolver() returns (leaves: bool)
      requires Valid()
      modifies this
      ensures Valid() && State() == Back(page, old(State()))
      ensures leaves == LeavesPage(page, old(State()))
    {
      leaves := false;
      if vista == Cartas {
        vista := if modoLibre then SeleccionBarajaLibre else Tiradas;
        cartas := [];
      } else if vista == Interpretacion {
        vista := Cartas;
      } else if vista == SeleccionBarajaLibre {
        vista := Opciones;
        modoLibre := false;
        baraja := Tradicional;
        tirada := None;
      } else if vista == Tiradas {
        vista := Opciones;
        tirada := None;
        cartas := [];
      } else if page == TarotPage {
        leaves := vista == Opciones;
      } else {
        vista := Opciones;
        tirada := None;
        cartas := [];
      }
    }

    method HandleInterpretarCartas()
      requires Valid() && Enabled(State(), InterpretPressed)
      modifies this
      ensures Valid() && State() == Interpret(old(State()))
    {
      vista := Interpretacion;
    }

    method PuedeIrAInterpretacion() returns (ok: bool)
      ensures ok == CanInterpret(State())
    {
      if modoLibre {
        ok := |cartas| > 0;
      } else {
        ok := tirada.Some? && |cartas| == tirada.value.numeroCartas;
      }
    }

    /** The card view's in-place sort of the cards array it renders. */
    method RenderCards()
      requires Valid() && Enabled(State(), CardsRendered)
      modifies this
      ensures Valid() && State() == RenderSort(old(State()))
    {
      ghost var before := State();
      cartas := SortBy(cartas, PositionOf);
      StepPreserves(page, before, CardsRendered);
    }
  }
}
