# Lecturas — a verified model of the Tarot reading session and its helpers

This project models the reading logic of *Lecturas*, a small web application
for Tarot, rune and I Ching readings, and proves properties of that model.

- **The Tarot reading session** (module `ReadingSession`) holds what the
  Tarot page and its older copy, the index page, keep in state:
  - the current view, the chosen layout (`Tirada`) and the deck;
  - the cards placed so far (`CartaSeleccionada`);
  - whether the reading is free-form.

  Every handler is a transition function on `SessionState`. The class
  `Session` holds the same state in fields, and each of its methods makes the
  handler's update in place. The invariant says that:
  - positions are distinct;
  - only the card and interpretation views hold cards;
  - a free-form reading numbers its cards 1..k and has a layout of base and
    generated slots, with at least as many slots as cards.

  Every handler keeps the invariant whenever its control is on screen.
- **The card chooser** (module `CardSelector`) covers:
  - the next-slot rule;
  - staging a traditional card until its orientation is confirmed;
  - adding an Osho card at once;
  - double-click reversal, the category, letter and suit filters;
  - the plain-text copy of the placed cards.

  `Reading` composes the chooser with the session. `Step` is one handler
  followed by the card view's render, which sorts the page's card array in
  place. `Handle`, `Step` and `RunView` use the corrected confirm (see
  Findings); `HandleAsWritten`, `StepAsWritten` and `RunViewAsWritten` use the
  source's confirm. For fixed layouts the model proves:
  - with either confirm, cards stay within slots 1..N for every sequence of
    user actions;
  - with the corrected confirm, slots fill as 1, 2, 3, … in the order cards
    are placed, for every sequence of user actions;
  - with the source's confirm, the same holds as long as undo and clear are
    not pressed while a card waits in the orientation dialog; pressing them
    then can make it skip a slot.
- **Card catalogue helpers** (module `CardCatalog`):
  - the major/minor/Osho sections;
  - minor-arcana rank labels and rank order;
  - the suit rows;
  - first-letter bucketing, with article stripping and accent folding;
  - the letter menus and the per-letter card list.
- **Interpretation view** (module `CardInterpretation`):
  - id normalisation;
  - lookup with orientation choice and a fallback record;
  - the cards listed by position with the "reversed" badge.
- **Layout chooser** (module `LayoutSelector`):
  - the layouts grouped by card count;
  - the group headings;
  - the preview, confirm and close handlers;
  - the details text.
- **Rune chooser** (module `RuneSelector`):
  - the toggled current rune and the list with distinct ids;
  - the two modes and the interpretation guards;
  - the Elder Futhark runes shown;
  - the copy text.
- **Rune page** (module `RunesPage`): the three views and the rune or list
  handed over for interpretation.
- **I Ching search** (module `IchingSearch`):
  - `parseInt` of the typed text;
  - the range check 1..64;
  - the hexagram lookup, with exactly one of error and result shown.
- **Osho id rewrite** (module `OshoIds`): the regular-expression replacement
  that turns `'ID_DE_CARTA_OSHO'` into `'id-de-carta-osho'`.

Shared modules:
- `TarotTypes`: the value types of `src/types/tarot.ts`.
- `Sorting`: JavaScript's `filter` and its stable `sort` with a numeric
  comparator. The sort is proved sorted, a permutation and stable.
- `Text`: ASCII case mapping, decimal rendering, `join`/`split` and their
  round trip.
- `Wrappers`: `Option`.

Catalogues and meaning tables are parameters of the model, not data in it.

### Behaviour of the code worth knowing

- **A free-form layout can have more slots than cards.** Back from the card
  view clears the cards but keeps the grown layout
  (`src/pages/TarotPage.tsx:194-198`). Choosing a deck again then shows a
  layout with stale slots. `ReadingSession.StaleFreeLayout` exhibits
  this. The invariant proved is therefore only `|cartas| <= numeroCartas`.
- **Generated free-form slots** are named "Carta n" with the description
  "Selecciona otra carta" (`src/pages/TarotPage.tsx:114-118`).
- **Undo removes the last array element.** It removes the highest position
  only because every render of the card view sorts the page's array in place
  (`ReadingSession.UndoAfterRenderRemovesHighest`).
- **Running the Osho id rewrite twice can change the text again.** A second pass leaves text that
  is one quoted token unchanged (`OshoIds.SingleTokenStable`). But when two
  ids share a quote, as in `'A_OSHO'B_OSHO'`, the first pass rewrites only
  the first id, and a second pass changes the text again
  (`OshoIds.SharedQuoteNotIdempotent`).
- **The explicit list of major-arcana ids is redundant.** Each of those ids
  already starts with `el-` or `la-` (`CardCatalog.MajorByPrefix`).
- **When every slot of a fixed layout is full,** the next slot is the
  remembered `posicionActual`. Placing a card there replaces the card in that
  slot; the card list is not left unchanged.

## Model

| member | source | states |
|---|---|---|
| ReadingSession.ReplaceOrAppendPlaces | src/pages/TarotPage.tsx:128-135 | a fixed-layout add replaces the card at the same position in place (length and every other entry unchanged) or appends when the position is free; positions stay distinct |
| ReadingSession.AddFixedPlaces | src/pages/TarotPage.tsx:128-135 | after a fixed-layout add the new card is the only card at its position, every other position keeps its occupancy, and the length grows by one exactly when the position was free |
| ReadingSession.AddFreeAppends | src/pages/TarotPage.tsx:107-124 | a free-form add ignores the incoming position, appends the card at position length+1, grows numeroCartas by one and appends the generated slot "Carta n"; the invariant is kept |
| ReadingSession.AddPreserves | src/pages/TarotPage.tsx:106-142 | adding a card while the card view is shown keeps the session invariant (distinct positions; free-form: dense 1..k and a well-formed grown layout) |
| ReadingSession.ToggleTwice | src/pages/TarotPage.tsx:144-150 | toggling flips `invertida` exactly on the cards at the given position, changes nothing else, and toggling twice restores the session |
| ReadingSession.AddThenUndo | src/pages/TarotPage.tsx:106-169 | adding a card to a free slot (or any card in free mode) and undoing restores the cards; in a free-form reading the whole session is restored exactly when numeroCartas was max(1, number of cards), i.e. the layout had no stale slots |
| ReadingSession.UndoDropsLast | src/pages/TarotPage.tsx:152-169 | undo removes the last array element; a free-form layout shrinks to the new length (back to the one-slot base when empty); a fixed layout is kept |
| ReadingSession.UndoPreserves | src/pages/TarotPage.tsx:152-180 | undo keeps the session invariant, including on an empty list |
| ReadingSession.CanInterpretIffAllPlaced | src/pages/TarotPage.tsx:226-232 | for a fixed layout with distinct positions in 1..N, the reading can be interpreted exactly when every slot 1..N holds a card |
| ReadingSession.CanInterpretFree | src/pages/TarotPage.tsx:226-228 | a free-form reading can be interpreted exactly when it holds at least one card |
| ReadingSession.RenderSortOrders | src/components/CartaSelector.tsx:746-747 | the render's in-place sort is a permutation of the cards with strictly increasing positions, and leaves a free-form reading's cards as they were |
| ReadingSession.UndoAfterRenderRemovesHighest | src/pages/TarotPage.tsx:152-155 | after the card view has rendered, undo removes a card holding the highest position and keeps every other card |
| ReadingSession.BackFromInterpretation | src/pages/TarotPage.tsx:204-205 | back from the interpretation changes only the view: interpreting again gives the same session, and whether the reading can be interpreted is kept |
| ReadingSession.BackPagesAgree | src/pages/Index.tsx:191-216 | the index page's back button behaves as the Tarot page's in every view except the options view and the unused free-selection view |
| ReadingSession.BackFromCards | src/pages/TarotPage.tsx:194-203 | back from the card view clears the cards, keeps the layout, returns to the deck choice (free-form) or the layout list (fixed), and keeps the invariant |
| ReadingSession.StepPreserves | src/pages/TarotPage.tsx:69-232 | every handler, and the card view's render, keeps the invariant whenever its control is on screen |
| ReadingSession.RunPreserves | src/pages/TarotPage.tsx:69-232 | every sequence of on-screen actions from a valid session ends in a valid session |
| ReadingSession.InitialValid | src/pages/TarotPage.tsx:53-57 | the initial session (options view, no layout, traditional deck, no cards) satisfies the invariant |
| ReadingSession.StaleFreeLayout | src/pages/TarotPage.tsx:194-198 | free mode, two cards, back, same deck again: the card view shows no cards but a three-slot layout |
| ReadingSession.Session.constructor | src/pages/TarotPage.tsx:53-57 | a page starts in the initial session, which is valid |
| ReadingSession.Session.HandleSeleccionLibre | src/pages/TarotPage.tsx:69-75 | enters free mode with the one-slot base layout, no cards, on the deck choice |
| ReadingSession.Session.HandleSeleccionTiradas | src/pages/TarotPage.tsx:77-80 | leaves free mode and shows the layout list |
| ReadingSession.Session.HandleBarajaLibreSelect | src/pages/TarotPage.tsx:82-85 | sets the deck and shows the card view |
| ReadingSession.Session.HandleTiradaSelect | src/pages/TarotPage.tsx:87-93 | sets layout and deck, clears the cards and shows the card view |
| ReadingSession.Session.HandleCambiarBaraja | src/pages/TarotPage.tsx:95-104 | sets the deck and clears the cards; a free-form layout goes back to the base layout |
| ReadingSession.Session.HandleCartaAdd | src/pages/TarotPage.tsx:106-142 | performs the add in place and keeps the invariant |
| ReadingSession.Session.HandleCartaToggle | src/pages/TarotPage.tsx:144-150 | performs the toggle in place and keeps the invariant |
| ReadingSession.Session.HandleDeshacerUltimaCarta | src/pages/TarotPage.tsx:152-180 | performs the undo in place and keeps the invariant |
| ReadingSession.Session.HandleLimpiarCartas | src/pages/TarotPage.tsx:182-190 | empties the cards; a free-form layout goes back to the base layout, a fixed one is kept |
| ReadingSession.Session.HandleVolver | src/pages/TarotPage.tsx:193-220 | performs the back transition and reports that the page is left for the application's root exactly from the Tarot page's options view |
| ReadingSession.Session.HandleInterpretarCartas | src/pages/TarotPage.tsx:222-224 | shows the interpretation, keeping cards and layout |
| ReadingSession.Session.PuedeIrAInterpretacion | src/pages/TarotPage.tsx:226-232 | returns whether the reading is complete, as `CanInterpret` defines it |
| ReadingSession.Session.RenderCards | src/components/CartaSelector.tsx:746-747 | sorts the page's cards in place by position and keeps the invariant |
| CardSelector.FirstFree | src/components/CartaSelector.tsx:196-200 | returns the lowest empty slot in the range (every lower slot is taken), or none when all are taken |
| CardSelector.NextPosition | src/components/CartaSelector.tsx:192-203 | free-form: length+1; fixed: the lowest empty slot of 1..N, and the remembered position when every slot is full |
| CardSelector.NextPositionDense | src/components/CartaSelector.tsx:192-203 | with cards in slots 1..k, the next slot is k+1 while slots are left, else the remembered position |
| CardSelector.Handle | src/components/CartaSelector.tsx:205-275 | every chooser handler keeps the card view on screen and leaves mode and deck unchanged |
| CardSelector.Step | src/components/CartaSelector.tsx:746-747 | a handler followed by the render's sort keeps the card view on screen |
| CardSelector.RenderKeeps | src/components/CartaSelector.tsx:746-747 | the render keeps the invariant and which slots are occupied, and changes nothing when cards already sit at 1..k |
| CardSelector.PlaceBounded | src/pages/TarotPage.tsx:128-135 | placing a card at a slot of 1..N keeps every card in 1..N and the invariant |
| CardSelector.HandleBounded | src/components/CartaSelector.tsx:205-275 | every chooser handler, with the corrected confirm, keeps cards, pending card and remembered position within 1..N |
| CardSelector.PickBounded | src/components/CartaSelector.tsx:205-241 | picking a card keeps the fixed layout within 1..N (staged or added) |
| CardSelector.ConfirmBounded | src/components/CartaSelector.tsx:243-265 | the corrected confirm keeps the fixed layout within 1..N |
| CardSelector.ConfirmAsWrittenBounded | src/components/CartaSelector.tsx:243-265 | the source's confirm, placing the card at the slot captured at pick time, keeps the fixed layout within 1..N |
| CardSelector.ToggleBounded | src/components/CartaSelector.tsx:271-275 | double-click keeps the fixed layout within 1..N |
| CardSelector.UndoBounded | src/pages/TarotPage.tsx:152-176 | undo keeps the fixed layout within 1..N |
| CardSelector.StepBounded | src/components/CartaSelector.tsx:205-275 | every step of the corrected view keeps the fixed layout within its slots |
| CardSelector.StepAsWrittenBounded | src/components/CartaSelector.tsx:205-275 | every step of the source's view keeps the fixed layout within its slots |
| CardSelector.RunBounded | src/components/CartaSelector.tsx:192-275 | any sequence of actions in the corrected view keeps the fixed layout within its slots and the remembered position in 1..N |
| CardSelector.RunBoundedAsWritten | src/components/CartaSelector.tsx:192-275 | any sequence of actions in the source's view keeps the fixed layout within its slots and the remembered position in 1..N |
| CardSelector.MountStaged | src/components/CartaSelector.tsx:42-52 | choosing a fixed layout mounts the chooser at position 1 with nothing pending, in an orderly state |
| CardSelector.BoundedInterpretIffFull | src/pages/TarotPage.tsx:226-232 | in every reachable fixed-layout state the reading can be interpreted exactly when all slots 1..N hold a card |
| CardSelector.PlaceNextDense | src/components/CartaSelector.tsx:192-203 | placing a card at the next slot keeps cards at 1..k in placement order |
| CardSelector.HandleOrderly | src/components/CartaSelector.tsx:205-275 | with the corrected confirm, every handler keeps cards at 1..k in placement order |
| CardSelector.StepOrderly | src/components/CartaSelector.tsx:205-275 | the same across the render's sort |
| CardSelector.RunOrderly | src/components/CartaSelector.tsx:192-275 | with the corrected confirm, for every sequence of actions a fixed layout fills slots 1, 2, 3, … in placement order, never skipping one |
| CardSelector.StepAsWrittenAgrees | src/components/CartaSelector.tsx:243-253 | while the pending card is bound for the dialog's slot, a step of the source's view is a step of the corrected view |
| CardSelector.RunOrderlyAsWritten | src/components/CartaSelector.tsx:192-275 | with the source's confirm, a fixed layout fills slots 1, 2, 3, … in placement order for every sequence of actions that does not press undo or clear while a card is pending, and the run equals the corrected run |
| CardSelector.PickStagesNext | src/components/CartaSelector.tsx:205-214 | picking a traditional card stages it for the slot after the last card and adds nothing |
| CardSelector.ConfirmAppends | src/components/CartaSelector.tsx:243-264 | the corrected confirm appends the pending card, with the chosen orientation and deck, at the next slot, and clears the pending card |
| CardSelector.ConfirmAsWrittenAppends | src/components/CartaSelector.tsx:243-264 | the source's confirm does the same when the card was picked for the slot the dialog names |
| CardSelector.PickThenConfirm | src/components/CartaSelector.tsx:205-265 | pick then confirm upright appends exactly that card at the next slot |
| CardSelector.StepStaged | src/components/CartaSelector.tsx:205-275 | a pending card stays bound for the slot the dialog names through every step, as long as undo and clear are not pressed while it waits |
| CardSelector.HandlePending | src/components/CartaSelector.tsx:205-275 | the handler-level form of `StepStaged` |
| CardSelector.AsWrittenAgreesWhenStaged | src/components/CartaSelector.tsx:243-253 | while the pending slot equals the dialog's slot, the source's confirm and the corrected confirm coincide |
| CardSelector.AsWrittenAgreesWhenFree | src/components/CartaSelector.tsx:243-253 | in free mode the page renumbers the card, so the two confirms coincide |
| CardSelector.UndoWhilePending | src/components/CartaSelector.tsx:205-265 | on a three-slot layout, two cards confirmed, a third picked, then undo: one card in slot 1 and a card pending for slot 3 |
| CardSelector.StalePendingSkipsSlot | src/components/CartaSelector.tsx:243-253 | in that state the dialog names slot 2 but the source's confirm places the card in slot 3, leaving a gap; the corrected confirm places it in slot 2 |
| CardSelector.FilterWellFormed | src/components/CartaSelector.tsx:236-240 | the filter buttons keep letter and suit consistent with the category, and picking a card closes the list |
| CardSelector.FilterBackTwice | src/components/CartaSelector.tsx:658-669 | the filter's back button clears suit, then letter, then category; two presses return to the category buttons |
| CardSelector.FindSlot | src/components/CartaSelector.tsx:298 | the slot found is the first slot of the layout with the requested number; none means no slot has it |
| CardSelector.CopyLinesShape | src/components/CartaSelector.tsx:291-302 | line i starts with "i+1. " and ends in " (Invertida)" when its card is reversed |
| CardSelector.CopyTextLines | src/components/CartaSelector.tsx:288-304 | the copied text splits back into one line per card, in position order, each as `CopyLine` builds it |
| CardSelector.CartaSelector.constructor | src/components/CartaSelector.tsx:42-52 | the chooser starts at position 1 with no filter and nothing pending |
| CardSelector.CartaSelector.ObtenerSiguientePosicion | src/components/CartaSelector.tsx:192-203 | the loop returns the next slot, as `NextPosition` specifies it |
| CardSelector.CartaSelector.HandleCartaSelect | src/components/CartaSelector.tsx:205-241 | stages a traditional card or adds an Osho card at the next slot, advances the remembered position, and closes the card list |
| CardSelector.CartaSelector.ConfirmarCartaConPosicion | src/components/CartaSelector.tsx:243-265 | places the pending card at the slot the dialog names (corrected), advances the remembered position, clears the pending card; no-op without one |
| CardSelector.CartaSelector.CancelarSeleccionCarta | src/components/CartaSelector.tsx:267-269 | drops the pending card and changes nothing else |
| CardSelector.CartaSelector.HandleDoubleClick | src/components/CartaSelector.tsx:271-275 | reverses the cards at the position for the traditional deck only |
| CardSelector.CartaSelector.ElegirCategoria | src/components/CartaSelector.tsx:439-441 | sets the category and clears letter and suit |
| CardSelector.CartaSelector.ElegirLetra | src/components/CartaSelector.tsx:473 | sets the letter |
| CardSelector.CartaSelector.ElegirPalo | src/components/CartaSelector.tsx:507 | sets the suit |
| CardSelector.CartaSelector.VolverFiltro | src/components/CartaSelector.tsx:658-669 | clears the innermost filter choice |
| CardSelector.CartaSelector.CopiarListaCartas | src/components/CartaSelector.tsx:288-304 | sorts the page's cards in place and returns the copy text of the cards in position order |
| CardCatalog.CardNameById | src/components/CartaSelector.tsx:283-286 | the name of the first catalogue entry with the id, or the id itself when none has it |
| CardCatalog.MajorByPrefix | src/components/CartaSelector.tsx:54-74 | a traditional card is a major arcanum exactly when its id starts with "el-", "la-" or "los-" |
| CardCatalog.CartaMenorDisplay | src/components/CartaSelector.tsx:140-157 | the label is the name itself or one of the fourteen rank labels |
| CardCatalog.CartaMenorDisplayNone | src/components/CartaSelector.tsx:156 | a name with no rank word as a whole word is shown unchanged |
| CardCatalog.CartaMenorDisplayFirst | src/components/CartaSelector.tsx:141-154 | the first rank word, in the order As … Rey, that occurs as a whole word in any letter case decides the label |
| CardCatalog.SortValue | src/components/CartaSelector.tsx:164-180 | the rank is 1 + the index of the first rank name the card's name contains, and 99 when it contains none |
| CardCatalog.CartasDelPaloSpec | src/components/CartaSelector.tsx:159-182 | a suit's cards are exactly the minor arcana whose id contains "-de-<suit>", each as often as in the catalogue, in non-decreasing rank |
| CardCatalog.CartasDelPaloStable | src/components/CartaSelector.tsx:163-182 | cards of equal rank keep their catalogue order |
| CardCatalog.RowSpec | src/components/CartaSelector.tsx:184-187 | each row holds exactly the suit's cards naming one of its rank words, in rank order |
| CardCatalog.Deaccent | src/components/CartaSelector.tsx:95 | after decomposition and removal of marks U+0300–U+036F no combining mark is left |
| CardCatalog.DeaccentConcat | src/components/CartaSelector.tsx:95 | accent stripping works character by character: stripping a concatenation is concatenating the stripped parts |
| CardCatalog.DeaccentChar | src/components/CartaSelector.tsx:95 | a combining mark is dropped; any other character becomes its base letter |
| CardCatalog.DeaccentPlain | src/components/CartaSelector.tsx:95 | text with no combining mark keeps its length, each character replaced by its base letter |
| CardCatalog.TrimStart | src/components/CartaSelector.tsx:94 | the result is the input with its leading white space removed: a suffix that does not start with white space, everything removed being white space |
| CardCatalog.TrimEnd | src/components/CartaSelector.tsx:94 | the result is the input with its trailing white space removed: a prefix that does not end with white space, everything removed being white space |
| CardCatalog.ArticleLength | src/components/CartaSelector.tsx:93 | the article matched is 0, 2 or 3 characters long |
| CardCatalog.FirstLetterOf | src/components/CartaSelector.tsx:94-95 | at most one character, never a lower-case ASCII letter or a combining mark |
| CardCatalog.FirstLetterForSorting | src/components/CartaSelector.tsx:91-96 | the bucket letter has at most one character |
| CardCatalog.ArticleIgnored | src/components/CartaSelector.tsx:93 | a leading El, La, Los or Las in any letter case, and the white space after it, do not affect the first letter |
| CardCatalog.FirstLetterOfAscii | src/components/CartaSelector.tsx:95 | a cleaned name starting with an ASCII letter, accented or not, gets that letter in upper case |
| CardCatalog.InsertLetter | src/components/CartaSelector.tsx:99-103 | adding a letter to a strictly sorted menu keeps it strictly sorted and adds exactly that letter |
| CardCatalog.DistinctSorted | src/components/CartaSelector.tsx:103 | the loop returns the distinct letters of the input, strictly sorted by character code |
| CardCatalog.LetterMenu | src/components/CartaSelector.tsx:98-112 | the letter menu is strictly sorted and holds exactly the first letters of the given cards |
| CardCatalog.FiltrarCartasPorLetraSpec | src/components/CartaSelector.tsx:127-138 | Osho cards, or traditional major arcana when that category is chosen, with the given first letter, each as often as in the catalogue, sorted by name rank with equal ranks in catalogue order; nothing otherwise |
| CardInterpretation.NormalizeId | src/components/InterpretacionCartas.tsx:94 | the key has the id's length, no upper-case letter and no '_' |
| CardInterpretation.NormalizeIdempotent | src/components/InterpretacionCartas.tsx:94 | normalising twice is normalising once |
| CardInterpretation.NormalizeIgnoresCaseAndSeparator | src/components/InterpretacionCartas.tsx:94 | ids that differ only in ASCII case and '_' against '-' get the same key |
| CardInterpretation.Find | src/components/InterpretacionCartas.tsx:99 | returns the first entry with the id, and none exactly when no entry has it |
| CardInterpretation.TraditionalHit | src/components/InterpretacionCartas.tsx:98-117 | a traditional hit shows the first matching entry; meaning, detail and key words come from the reversed fields exactly when the card is reversed; the other fields are copied |
| CardInterpretation.OshoHit | src/components/InterpretacionCartas.tsx:118-137 | an Osho hit ignores orientation; it shows name, meaning and commentary with no key words or other fields |
| CardInterpretation.Miss | src/components/InterpretacionCartas.tsx:140-155 | a card missing from its deck's table gets the fixed "Carta Desconocida" record |
| CardInterpretation.LookupOfNormalized | src/components/InterpretacionCartas.tsx:93-94 | looking up an already normalised id gives the same record |
| CardInterpretation.Entradas | src/components/InterpretacionCartas.tsx:202-209 | the view lists one entry per card |
| CardInterpretation.EntradasInOrder | src/components/InterpretacionCartas.tsx:202-234 | the entries are the cards, each once, in strictly increasing position, each with its own interpretation; the reversed badge appears exactly for reversed traditional cards |
| CardInterpretation.ViewSortKeeps | src/components/InterpretacionCartas.tsx:202-203 | the view's in-place sort keeps the invariant and whether the reading can be interpreted |
| LayoutSelector.GroupTiradas | src/components/TiradaSelector.tsx:27-39 | the loop's keys are exactly the occurring card counts, and each group holds the layouts with that count in catalogue order; the catalogue array is not modified |
| LayoutSelector.PushedIsGroups | src/components/TiradaSelector.tsx:30-36 | pushing layouts one by one onto their count's group builds the reference grouping |
| LayoutSelector.GroupsOfSorted | src/components/TiradaSelector.tsx:28-36 | grouping the stably sorted copy gives the same groups as grouping the catalogue |
| LayoutSelector.EachLayoutOnce | src/components/TiradaSelector.tsx:27-39 | each layout appears in the group of its own card count, as often as in the catalogue, and in no other group |
| LayoutSelector.Heading | src/components/TiradaSelector.tsx:146 | the heading names the count and ends in "cartas" exactly when the count is not 1, else in " carta" |
| LayoutSelector.DetailsTextLines | src/components/TiradaSelector.tsx:69-76 | the details text splits back into the name, description, empty and "Posiciones:" lines, then "i. nombre: descripcion" per slot in order, then a final empty piece |
| LayoutSelector.TiradaSelector.constructor | src/components/TiradaSelector.tsx:23-24 | the chooser starts with the traditional deck and no preview |
| LayoutSelector.TiradaSelector.SetBaraja | src/components/TiradaSelector.tsx:128 | sets the deck, keeping the preview |
| LayoutSelector.TiradaSelector.HandleTiradaClick | src/components/TiradaSelector.tsx:41-43 | previews the clicked layout, keeping the deck |
| LayoutSelector.TiradaSelector.HandleConfirmarTirada | src/components/TiradaSelector.tsx:45-49 | hands the previewed layout and the chosen deck to the page exactly when a layout is previewed |
| LayoutSelector.TiradaSelector.HandleCerrarVistaPrevia | src/components/TiradaSelector.tsx:51-53 | clears the preview, keeping the deck |
| LayoutSelector.TiradaSelector.HandleCopiarDetallesTirada | src/components/TiradaSelector.tsx:69-76 | the loop builds the details text of the previewed layout; nothing is copied without a preview |
| RuneSelector.SelectToggle | src/components/RunaSelector.tsx:46-52 | clicking the current rune deselects it; clicking any other rune selects it |
| RuneSelector.AddToList | src/components/RunaSelector.tsx:54-73 | no change without a selection or when its id is listed, else the rune is appended; distinct ids stay distinct |
| RuneSelector.RemoveId | src/components/RunaSelector.tsx:75-82 | removes every rune with the id and keeps exactly the others; distinct ids stay distinct |
| RuneSelector.DropLast | src/components/RunaSelector.tsx:84-91 | drops the last rune; an empty list stays empty |
| RuneSelector.AddThenDrop | src/components/RunaSelector.tsx:54-91 | adding a new rune and undoing gives the list back |
| RuneSelector.ApplyKeepsDistinct | src/components/RunaSelector.tsx:46-101 | every handler keeps the listed ids pairwise distinct |
| RuneSelector.ApplyValid | src/components/RunaSelector.tsx:179-196 | every on-screen action keeps the ids distinct and the list empty in one-rune mode |
| RuneSelector.RunValid | src/components/RunaSelector.tsx:46-196 | every sequence of on-screen actions keeps the chooser valid |
| RuneSelector.ListCallback | src/components/RunaSelector.tsx:104-119 | the list is handed over exactly when it is non-empty |
| RuneSelector.IndividualCallback | src/components/RunaSelector.tsx:122-136 | the rune is handed over exactly when one is selected |
| RuneSelector.OrderedRunes | src/components/RunaSelector.tsx:162-164 | the runes shown are exactly those with orden in 1..24, sorted by orden |
| RuneSelector.CopyTextLines | src/components/RunaSelector.tsx:139-142 | the copied text splits back into "i. nombre (unicode)" per listed rune, in list order |
| RuneSelector.RunaSelector.constructor | src/components/RunaSelector.tsx:41-43 | mounts in list mode with nothing selected and an empty list |
| RuneSelector.RunaSelector.HandleSelectRuna | src/components/RunaSelector.tsx:46-52 | toggles the current rune in place |
| RuneSelector.RunaSelector.HandleAddRunaToList | src/components/RunaSelector.tsx:54-73 | the loop searches the list for the id and appends the rune only when it is absent |
| RuneSelector.RunaSelector.HandleRemoveRunaFromList | src/components/RunaSelector.tsx:75-82 | removes the id in place |
| RuneSelector.RunaSelector.HandleUndoLastRuna | src/components/RunaSelector.tsx:84-91 | drops the last rune in place |
| RuneSelector.RunaSelector.HandleClearRunasList | src/components/RunaSelector.tsx:93-101 | empties the list and clears the selection |
| RuneSelector.RunaSelector.ChooseMultiple | src/components/RunaSelector.tsx:179-182 | switches to list mode and clears the selection |
| RuneSelector.RunaSelector.ChooseIndividual | src/components/RunaSelector.tsx:189-192 | switches to one-rune mode and clears the list |
| RuneSelector.RunaSelector.HandleInterpretSelectedRunasList | src/components/RunaSelector.tsx:104-119 | returns the list handed to the page, only when non-empty |
| RuneSelector.RunaSelector.HandleInterpretSelectedIndividualRuna | src/components/RunaSelector.tsx:122-136 | returns the rune handed to the page, only when one is selected |
| RuneSelector.RunaSelector.HandleCopyRunasList | src/components/RunaSelector.tsx:139-142 | returns the copy text of the list |
| RunesPage.Render | src/pages/RunesPage.tsx:91-107 | the single rune wins; a list is shown only when non-empty; otherwise the error text |
| RunesPage.Step | src/pages/RunesPage.tsx:19-43 | interpreting stores one hand-over and drops the other; back moves chooser→options and interpretation→chooser, clearing both, and leaves the options view unchanged |
| RunesPage.RunAtMostOne | src/pages/RunesPage.tsx:19-43 | after any sequence of handlers at most one hand-over is held, and none outside the interpretation view |
| RunesPage.ChooserNeverShowsError | src/components/RunaSelector.tsx:104-107 | through the chooser's guard, a handed-over list is always shown as a list, never as the error text |
| RunesPage.RunesPageState.constructor | src/pages/RunesPage.tsx:15-17 | starts on the options view with no hand-over |
| RunesPage.RunesPageState.OpenRunas | src/pages/RunesPage.tsx:59 | the options card opens the rune chooser |
| RunesPage.RunesPageState.HandleInterpretIndividualRuna | src/pages/RunesPage.tsx:19-23 | stores the rune, clears the list, shows the interpretation of that rune |
| RunesPage.RunesPageState.HandleInterpretRunasList | src/pages/RunesPage.tsx:25-29 | stores the list, clears the rune, shows the list (or the error text when empty) |
| RunesPage.RunesPageState.HandleVolver | src/pages/RunesPage.tsx:31-43 | performs the back transition and asks for the browser's history exactly from the options view |
| IchingSearch.ParseDigits | src/pages/IchingSearchPage.tsx:46 | no number exactly when the text does not start with a digit |
| IchingSearch.ParseIntNone | src/pages/IchingSearchPage.tsx:46 | `parseInt` gives NaN exactly when no digit follows the leading white space and the optional sign |
| IchingSearch.ParseIntOfString | src/pages/IchingSearchPage.tsx:46 | `parseInt` reads back exactly the integer a decimal rendering prints |
| IchingSearch.ParseIntOfDigits | src/pages/IchingSearchPage.tsx:46 | a string of digits is read as its decimal value |
| IchingSearch.ParseIntOfNegative | src/pages/IchingSearchPage.tsx:46 | a minus sign followed by digits is read as the negated value |
| IchingSearch.FindHexagram | src/pages/IchingSearchPage.tsx:54 | returns the first hexagram with the number, and none exactly when no hexagram has it |
| IchingSearch.Search | src/pages/IchingSearchPage.tsx:42-61 | exactly one of error and hexagram is shown, and the error is empty, the range text or the not-found text; range error iff NaN or outside 1..64; for a number in range that the table holds, no error and the first hexagram with that number; not-found error iff in range and absent |
| IchingSearch.SearchNumber | src/pages/IchingSearchPage.tsx:46-57 | searching for a number in 1..64 that the table holds finds that number's hexagram |
| IchingSearch.IchingSearchPage.constructor | src/pages/IchingSearchPage.tsx:37-40 | starts with empty text, no hexagram and no error |
| IchingSearch.IchingSearchPage.SetHexagramNumber | src/pages/IchingSearchPage.tsx:84 | stores the typed text, keeping the outcome |
| IchingSearch.IchingSearchPage.HandleSearch | src/pages/IchingSearchPage.tsx:42-61 | clears the old outcome and then sets error and hexagram to the search's outcome; the text is kept |
| OshoIds.MatchAtIff | transformOshoIds.cjs:16 | the scan's match test holds exactly when the regular expression matches there, and its group is unique |
| OshoIds.Convert | transformOshoIds.cjs:18 | the replacement has the token's length |
| OshoIds.ConvertIsNormalizeId | transformOshoIds.cjs:18 | the replacement is the interpretation view's id normalisation |
| OshoIds.Rewrite | transformOshoIds.cjs:16-20 | every replacement is as long as its match, so the text keeps its length |
| OshoIds.RewritePointwise | transformOshoIds.cjs:16-20 | only the groups of matched tokens change, by lower-casing and '_' to '-'; every other character, quotes included, is kept |
| OshoIds.NoMatchIdentity | transformOshoIds.cjs:16 | text in which the expression matches nowhere is unchanged |
| OshoIds.ConvertedShape | transformOshoIds.cjs:18 | a converted group has no capital letter and no '_' and ends in "-osho" |
| OshoIds.QuotedTokenStep | transformOshoIds.cjs:16-19 | at a quoted token the scan emits the quoted converted id and resumes after the closing quote |
| OshoIds.NoIdCharIdentity | transformOshoIds.cjs:16 | text with no `[A-Z_]` character is unchanged |
| OshoIds.SingleTokenStable | transformOshoIds.cjs:16-20 | a text that is one quoted token becomes the quoted converted id, and a second pass changes nothing |
| OshoIds.SharedQuoteNotIdempotent | transformOshoIds.cjs:16-20 | for two ids sharing a quote, as in `'A_OSHO'B_OSHO'`, the first pass leaves everything after the first id unchanged and a second pass changes the text again |
| Sorting.SortByPermutation | src/components/TiradaSelector.tsx:28 | the stable sort is a permutation of its input |
| Sorting.SortBySorted | src/components/TiradaSelector.tsx:28 | the stable sort orders by non-decreasing key |
| Sorting.SortByStable | src/components/TiradaSelector.tsx:28 | elements with equal keys keep their relative order |

## Left out

- Toasts, console logging, clipboard writes, `navigate`, `window.history`
  and the file I/O of the id rewrite are effects outside the model. The text
  that would be copied is returned instead. The page is "left" or "history
  goes back" is a returned flag.
- JSX rendering and styling are left out. Where a control is shown only in
  some states, that condition appears as an `Enabled` predicate.
- `posicionActualParaSelector` is left out: the pages write it but nothing
  reads it.
- React's batching and asynchronous state updates are not modelled. Each
  handler is one atomic update.
- CardSelector.CartaSelector.ConfirmarCartaConPosicion: implements the
  corrected confirm (`CardSelector.Confirm`), which places the card at the
  slot the dialog names. The source's confirm is modelled as
  `CardSelector.ConfirmAsWritten`; see Findings.
- CardSelector.Handle: its confirm case is the corrected `Confirm`; the
  source's handlers are `CardSelector.HandleAsWritten`.
- CardSelector.Step: built on `Handle`, so on the corrected confirm; the
  source's step is `CardSelector.StepAsWritten`.
- CardSelector.RunView: built on `Step`; the source's runs are
  `CardSelector.RunViewAsWritten`.
- CardSelector.HandleBounded: stated for the corrected confirm; the source's
  counterpart is `CardSelector.StepAsWrittenBounded`.
- CardSelector.ConfirmBounded: stated for the corrected confirm; the source's
  counterpart is `CardSelector.ConfirmAsWrittenBounded`.
- CardSelector.StepBounded: stated for the corrected view; the source's
  counterpart is `CardSelector.StepAsWrittenBounded`.
- CardSelector.RunBounded: stated for the corrected view; the source's
  counterpart is `CardSelector.RunBoundedAsWritten`.
- CardSelector.ConfirmAppends: stated for the corrected confirm; the source's
  confirm appends at the next slot only while the card is staged for it
  (`CardSelector.ConfirmAsWrittenAppends`).
- CardSelector.RunOrderly: stated for the corrected view; the source's view
  keeps slot order only when undo and clear are not pressed while a card is
  pending (`CardSelector.RunOrderlyAsWritten`, `CardSelector.StalePendingSkipsSlot`).
- Accent stripping covers only the precomposed Latin-1 letters and the
  combining marks U+0300–U+036F. Full Unicode canonical decomposition
  (Unicode Standard Annex #15) is not modelled. Case mapping is ASCII only.
- CardCatalog.FiltrarCartasPorLetraSpec: `localeCompare` is a
  caller-supplied rank function on names. The contract states the order
  relative to that rank, not any locale's collation.
- The rune chooser's `initialMode` property is fixed to its default, list
  mode. Remounting the chooser (its state is lost when the page leaves the
  `runas` view) is not modelled: the class keeps its fields.
- The key order of `Object.entries` on the grouped layouts is not modelled.
  The groups are a `map`, and the headings are stated per key.
- `parseInt`, `trim` and the `\s` of the article pattern treat as white
  space only tab, line feed, vertical tab, form feed, carriage return, space,
  no-break space and the byte-order mark. The other Unicode space separators
  (U+1680, U+2000–U+200A, U+2028, U+2029, U+202F, U+205F, U+3000) are not
  recognised. It is exact on integers:
  the floating-point rounding of very long digit strings is left out.
- Meaning-table fields the views do not read, and the display-only drawing
  coordinates of a slot, are omitted from the datatypes.
- The session's `Enabled` lets the deck-change handler fire on the card
  view. No control in the code raises it: the only button that would call
  `onCambiarBaraja` is commented out (`src/components/CartaSelector.tsx:386-400`).
  Allowing it is an over-approximation; every invariant is proved with it.
- The unused internal back handler of the layout chooser
  (`src/components/TiradaSelector.tsx:59-66`) is not modelled. Its button is
  commented out.
- The display-only components (`InterpretacionRunas`,
  `InterpretacionRunasLista`, the I Ching interpretation list and page),
  routing and build configuration are not part of this model.

## Findings

| source | as written | input that shows it | evidently intended | confidence | as-written member | corrected member |
|---|---|---|---|---|---|---|
| src/components/CartaSelector.tsx:213 | the pending card keeps the slot computed when it was picked (:213, used at :247), while the dialog names the slot that is next now (:321-323, :690) | three-slot layout, traditional deck: pick and confirm two cards, pick a third (bound for slot 3), press undo (removes slot 2), confirm | the card goes to the slot the dialog names (slot 2), so slots fill 1, 2, 3 with no gap | not executed | CardSelector.StalePendingSkipsSlot | CardSelector.RunOrderly |
