/**
 * The Tarot reading's value types: a layout (`Tirada`) with its numbered
 * slots (`Posicion`), a card placed in a reading (`CartaSeleccionada`), the
 * two decks, and the synthetic one-slot layout a free-form reading starts from.
 */
module TarotTypes {
  import opened Text

  datatype Baraja = Tradicional | Osho

  /** A slot of a layout. The optional drawing coordinates are display-only and omitted. */
  datatype Posicion = Posicion(numero: int, nombre: string, descripcion: string)

  datatype Tirada = Tirada(
    id: string,
    nombre: string,
    descripcion: string,
    numeroCartas: int,
    posiciones: seq<Posicion>)

  datatype CartaSeleccionada = CartaSeleccionada(
    posicion: int,
    carta: string,
    invertida: bool,
    baraja: Baraja)

  /** The first slot of the free-form layout. */
  const BaseSlot: Posicion := Posicion(1, "Carta 1", "Selecciona la primera carta libre")

  /** The free-form layout a reading starts from: one slot, `numeroCartas` 1. */
  const TiradaLibreBase: Tirada := Tirada(
    "libre",
    "Selección Libre",
    "Selecciona las cartas que desees sin un patrón específico",
    1,
    [BaseSlot])

  /** The slot appended when a free-form reading grows to `n` slots. */
  function FreeSlot(n: int): Posicion
  {
    Posicion(n, "Carta " + IntToString(n), "Selecciona otra carta")
  }
}
