/**
 * The interpretation view of a Tarot reading: a card's id is normalised and
 * looked up in the traditional or Osho meanings table; a traditional card's
 * meaning, detail and key words follow its orientation; an unknown card gets
 * a fixed fallback record. The cards are shown in position order, and the
 * "reversed" badge only for reversed traditional cards.
 *
 * The meanings tables are parameters; of their records the model keeps the
 * fields the view reads.
 */
module CardInterpretation {
  import opened Wrappers
  import opened Text
  import opened Sorting
  import opened TarotTypes
  import opened ReadingSession
  import opened CardSelector

  /** The fields a traditional meaning passes through unchanged, whatever the orientation. */
  datatype Extras = Extras(
    elemento: Option<string>,
    arquetipo: Option<string>,
    meditacionReflexion: Option<seq<string>>,
    arcano: Option<string>,
    numero: Option<int>,
    planeta: Option<string>,
    signoAstrologico: Option<string>,
    numerologia: Option<string>,
    simbolismo: Option<string>)

  const NoExtras: Extras := Extras(None, None, None, None, None, None, None, None, None)

  datatype TraditionalMeaning = TraditionalMeaning(
    id: string,
    nombre: string,
    significadoDerecho: string,
    significadoInvertido: string,
    detalleDerecho: string,
    detalleInvertido: string,
    palabrasClaveDerechas: Option<seq<string>>,
    palabrasClaveInvertidas: Option<seq<string>>,
    extras: Extras)

  datatype OshoMeaning = OshoMeaning(id: string, nombre: string, significado: string, comentario: string)

  datatype InterpretacionCarta = InterpretacionCarta(
    nombre: string,
    significado: string,
    interpretacion: string,
    palabrasClave: Option<seq<string>>,
    extras: Extras)

  /** The record shown for a card missing from its table. */
  const Desconocida: InterpretacionCarta := InterpretacionCarta(
    "Carta Desconocida",
    "Significado no encontrado",
    "Detalle no encontrado para esta carta. Por favor, verifica los archivos de datos.",
    None,
    NoExtras)

  /** The lookup key of a card id: lower case, with '-' for every '_'. */
  function NormalizeId(id: string): (r: string)
    ensures |r| == |id|
    ensures forall i :: 0 <= i < |r| ==> !IsAsciiUpper(r[i]) && r[i] != '_'
  {
    ReplaceChar(Lower(id), '_', '-')
  }

  /** Normalising twice is normalising once. */
  lemma NormalizeIdempotent(id: string)
    ensures NormalizeId(NormalizeId(id)) == NormalizeId(id)
  {
    var once := NormalizeId(id);
    assert forall i :: 0 <= i < |once| ==> LowerChar(once[i]) == once[i];
  }

  /** Ids that differ only in letter case and '_' against '-' have the same key. */
  lemma NormalizeIgnoresCaseAndSeparator(a: string, b: string)
    requires |a| == |b|
    requires forall i :: 0 <= i < |a| ==>
      (if a[i] == '_' then '-' else LowerChar(a[i])) == (if b[i] == '_' then '-' else LowerChar(b[i]))
    ensures NormalizeId(a) == NormalizeId(b)
  {
  }

  /** The first entry of `table` whose id is `id` (`find`). */
  function Find<T>(table: seq<T>, idOf: T -> string, id: string): (r: Option<T>)
    ensures r.None? <==> forall i :: 0 <= i < |table| ==> idOf(table[i]) != id
    ensures r.Some? ==> exists i :: (0 <= i < |table| && table[i] == r.value && idOf(table[i]) == id
      && forall j :: 0 <= j < i ==> idOf(table[j]) != id)
  {
    if table == [] then None
    else if idOf(table[0]) == id then Some(table[0])
    else
      var r := Find(table[1..], idOf, id);
      assert forall i :: 1 <= i < |table| ==> table[i] == table[1..][i - 1];
      r
  }

  function TraditionalId(m: TraditionalMeaning): string { m.id }

  function OshoId(m: OshoMeaning): string { m.id }

  /** A traditional meaning read in the card's orientation. */
  function Oriented(m: TraditionalMeaning, invertida: bool): InterpretacionCarta
  {
    InterpretacionCarta(
      m.nombre,
      if invertida then m.significadoInvertido else m.significadoDerecho,
      if invertida then m.detalleInvertido else m.detalleDerecho,
      if invertida then m.palabrasClaveInvertidas else m.palabrasClaveDerechas,
      m.extras)
  }

  /** An Osho meaning: its commentary is the interpretation; no other field is filled in. */
  function FromOsho(m: OshoMeaning): InterpretacionCarta
  {
    InterpretacionCarta(m.nombre, m.significado, m.comentario, None, NoExtras)
  }

  function GetInterpretacionCarta(
    tradicional: seq<TraditionalMeaning>, osho: seq<OshoMeaning>,
    cartaId: string, invertida: bool, baraja: Baraja): InterpretacionCarta
  {
    var key := NormalizeId(cartaId);
    if baraja == Tradicional then
      match Find(tradicional, TraditionalId, key)
      case Some(m) => Oriented(m, invertida)
      case None => Desconocida
    else
      match Find(osho, OshoId, key)
      case Some(m) => FromOsho(m)
      case None => Desconocida
  }

  /**
   * A traditional card found in its table shows the first matching entry's
   * name and pass-through fields, with meaning, detail and key words taken
   * from the reversed fields exactly when the card is reversed.
   */
  lemma TraditionalHit(tradicional: seq<TraditionalMeaning>, osho: seq<OshoMeaning>, cartaId: string, invertida: bool)
    requires exists i :: 0 <= i < |tradicional| && tradicional[i].id == NormalizeId(cartaId)
    ensures exists i :: (0 <= i < |tradicional| && tradicional[i].id == NormalizeId(cartaId)
      && (forall j :: 0 <= j < i ==> tradicional[j].id != NormalizeId(cartaId))
      && var m := tradicional[i];
         var r := GetInterpretacionCarta(tradicional, osho, cartaId, invertida, Tradicional);
         && r.nombre == m.nombre && r.extras == m.extras
         && (invertida ==> r.significado == m.significadoInvertido && r.interpretacion == m.detalleInvertido
                           && r.palabrasClave == m.palabrasClaveInvertidas)
         && (!invertida ==> r.significado == m.significadoDerecho && r.interpretacion == m.detalleDerecho
                            && r.palabrasClave == m.palabrasClaveDerechas))
  {
    var key := NormalizeId(cartaId);
    var found := Find(tradicional, TraditionalId, key);
    var i :| 0 <= i < |tradicional| && tradicional[i] == found.value && TraditionalId(tradicional[i]) == key
      && forall j :: 0 <= j < i ==> TraditionalId(tradicional[j]) != key;
  }

  /**
   * An Osho card found in its table shows the first matching entry's name,
   * meaning and commentary, with no other field, whatever its orientation.
   */
  lemma OshoHit(tradicional: seq<TraditionalMeaning>, osho: seq<OshoMeaning>, cartaId: string, invertida: bool)
    requires exists i :: 0 <= i < |osho| && osho[i].id == NormalizeId(cartaId)
    ensures GetInterpretacionCarta(tradicional, osho, cartaId, invertida, Osho)
         == GetInterpretacionCarta(tradicional, osho, cartaId, !invertida, Osho)
    ensures exists i :: (0 <= i < |osho| && osho[i].id == NormalizeId(cartaId)
      && (forall j :: 0 <= j < i ==> osho[j].id != NormalizeId(cartaId))
      && var r := GetInterpretacionCarta(tradicional, osho, cartaId, invertida, Osho);
         && r.nombre == osho[i].nombre && r.significado == osho[i].significado
         && r.interpretacion == osho[i].comentario
         && r.palabrasClave.None? && r.extras == NoExtras)
  {
    var key := NormalizeId(cartaId);
    var found := Find(osho, OshoId, key);
    var i :| 0 <= i < |osho| && osho[i] == found.value && OshoId(osho[i]) == key
      && forall j :: 0 <= j < i ==> OshoId(osho[j]) != key;
  }

  /** A card whose key is in neither table position gets the fallback record. */
  lemma Miss(tradicional: seq<TraditionalMeaning>, osho: seq<OshoMeaning>, cartaId: string, invertida: bool, baraja: Baraja)
    requires baraja == Tradicional ==> forall i :: 0 <= i < |tradicional| ==> tradicional[i].id != NormalizeId(cartaId)
    requires baraja == Osho ==> forall i :: 0 <= i < |osho| ==> osho[i].id != NormalizeId(cartaId)
    ensures GetInterpretacionCarta(tradicional, osho, cartaId, invertida, baraja) == Desconocida
  {
    var key := NormalizeId(cartaId);
    assert forall i :: 0 <= i < |tradicional| ==> TraditionalId(tradicional[i]) == tradicional[i].id;
    assert forall i :: 0 <= i < |osho| ==> OshoId(osho[i]) == osho[i].id;
  }

  /** Looking up an already normalised id gives the same record. */
  lemma LookupOfNormalized(tradicional: seq<TraditionalMeaning>, osho: seq<OshoMeaning>, cartaId: string, invertida: bool, baraja: Baraja)
    ensures GetInterpretacionCarta(tradicional, osho, NormalizeId(cartaId), invertida, baraja)
         == GetInterpretacionCarta(tradicional, osho, cartaId, invertida, baraja)
  {
    NormalizeIdempotent(cartaId);
  }

  // ---------------------------------------------------------------------------
  // The displayed list

  datatype Entrada = Entrada(carta: CartaSeleccionada, titulo: string, interpretacion: InterpretacionCarta, badgeInvertida: bool)

  /** A card's heading: "Carta n" in a free-form reading, else its slot's name or "Carta n". */
  function Titulo(modoLibre: bool, t: Tirada, pos: int): string
  {
    if modoLibre then "Carta " + IntToString(pos) else SlotName(t, pos)
  }

  function Entry(tradicional: seq<TraditionalMeaning>, osho: seq<OshoMeaning>, modoLibre: bool, t: Tirada,
                 baraja: Baraja, c: CartaSeleccionada): Entrada
  {
    Entrada(c, Titulo(modoLibre, t, c.posicion),
            GetInterpretacionCarta(tradicional, osho, c.carta, c.invertida, baraja),
            c.invertida && baraja == Tradicional)
  }

  /** The cards as the view lists them, after sorting the cards array by position. */
  function Entradas(tradicional: seq<TraditionalMeaning>, osho: seq<OshoMeaning>, s: SessionState): (r: seq<Entrada>)
    requires s.tirada.Some?
    ensures |r| == |s.cartas|
  {
    var sorted := SortBy(s.cartas, PositionOf);
    seq(|sorted|, i requires 0 <= i < |sorted| =>
      Entry(tradicional, osho, s.modoLibre, s.tirada.value, s.baraja, sorted[i]))
  }

  /**
   * The view lists every card once, by strictly increasing position, each
   * with its own interpretation; the reversed badge appears exactly for
   * reversed cards of the traditional deck.
   */
  lemma EntradasInOrder(tradicional: seq<TraditionalMeaning>, osho: seq<OshoMeaning>, s: SessionState)
    requires Invariant(s) && s.tirada.Some?
    ensures var r := Entradas(tradicional, osho, s);
      && multiset(seq(|r|, i requires 0 <= i < |r| => r[i].carta)) == multiset(s.cartas)
      && (forall i, j :: 0 <= i < j < |r| ==> r[i].carta.posicion < r[j].carta.posicion)
      && (forall i :: 0 <= i < |r| ==>
            && r[i].interpretacion
               == GetInterpretacionCarta(tradicional, osho, r[i].carta.carta, r[i].carta.invertida, s.baraja)
            && (r[i].badgeInvertida <==> r[i].carta.invertida && s.baraja == Tradicional))
  {
    var r := Entradas(tradicional, osho, s);
    RenderSortOrders(s);
    assert seq(|r|, i requires 0 <= i < |r| => r[i].carta) == SortBy(s.cartas, PositionOf);
  }

  /** The view's in-place sort keeps the page invariant and whether the reading can be interpreted. */
  lemma ViewSortKeeps(s: SessionState)
    requires Invariant(s)
    ensures Invariant(RenderSort(s))
    ensures CanInterpret(RenderSort(s)) == CanInterpret(s)
  {
    RenderSortOrders(s);
    if s.cartas == [] {
      assert SortBy(s.cartas, PositionOf) == [];
    }
  }
}
