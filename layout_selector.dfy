/**
 * The layout chooser: the catalogue of layouts grouped by card count (a
 * stable sort of a copy followed by an in-order push into a dictionary), the
 * group headings, the preview selection with its confirm and close buttons,
 * and the plain-text details of the previewed layout.
 */
module LayoutSelector {
  import opened Wrappers
  import opened Text
  import opened Sorting
  import opened TarotTypes

  function NumCartas(t: Tirada): int { t.numeroCartas }

  /** The card counts that occur in the catalogue. */
  function Counts(s: seq<Tirada>): set<int>
  {
    set i | 0 <= i < |s| :: s[i].numeroCartas
  }

  /**
   * The reference grouping: one key per occurring card count, holding the
   * layouts with that count in their catalogue order.
   */
  function Groups(s: seq<Tirada>): map<int, seq<Tirada>>
  {
    map k | k in Counts(s) :: Filter(s, KeyIs(NumCartas, k))
  }

  lemma CountsSnoc(s: seq<Tirada>, t: Tirada)
    ensures Counts(s + [t]) == Counts(s) + {t.numeroCartas}
  {
    var u := s + [t];
    forall k | k in Counts(u) ensures k in Counts(s) + {t.numeroCartas} {
      var i :| 0 <= i < |u| && u[i].numeroCartas == k;
      if i < |s| { assert s[i] == u[i]; }
    }
    forall k | k in Counts(s) ensures k in Counts(u) {
      var i :| 0 <= i < |s| && s[i].numeroCartas == k;
      assert u[i] == s[i];
    }
    assert u[|s|] == t;
  }

  lemma FilterAbsent(s: seq<Tirada>, k: int)
    requires k !in Counts(s)
    ensures Filter(s, KeyIs(NumCartas, k)) == []
  {
    forall i | 0 <= i < |s| ensures !KeyIs(NumCartas, k)(s[i]) {
      assert s[i].numeroCartas in Counts(s);
      assert s[i].numeroCartas != k;
      assert KeyIs(NumCartas, k)(s[i]) == (NumCartas(s[i]) == k);
    }
    FilterNone(s, KeyIs(NumCartas, k));
  }

  /** One push step: appending a layout extends exactly the group of its count. */
  lemma GroupsSnoc(s: seq<Tirada>, t: Tirada)
    ensures var g := Groups(s); var k := t.numeroCartas;
      Groups(s + [t]) == g[k := (if k in g then g[k] else []) + [t]]
  {
    var g := Groups(s);
    var k := t.numeroCartas;
    var expected := g[k := (if k in g then g[k] else []) + [t]];
    assert Counts(s + [t]) == Counts(s) + {k} by {
      CountsSnoc(s, t);
    }
    forall j | j in Counts(s + [t])
      ensures Groups(s + [t])[j] == expected[j]
    {
      GroupSnocAt(s, t, j);
    }
  }

  /** The group of count `j` after appending `t`. */
  lemma GroupSnocAt(s: seq<Tirada>, t: Tirada, j: int)
    requires j in Counts(s) + {t.numeroCartas}
    ensures var g := Groups(s); var k := t.numeroCartas;
      Filter(s + [t], KeyIs(NumCartas, j)) == g[k := (if k in g then g[k] else []) + [t]][j]
  {
    var p := KeyIs(NumCartas, j);
    assert Filter(s + [t], p) == Filter(s, p) + Filter([t], p) by {
      FilterConcat(s, [t], p);
    }
    FilterOne(t, p);
    if j == t.numeroCartas && j !in Counts(s) {
      FilterAbsent(s, j);
    }
  }

  lemma FilterCountsSame(a: seq<Tirada>, b: seq<Tirada>)
    requires multiset(a) == multiset(b)
    ensures Counts(a) == Counts(b)
  {
    forall k | k in Counts(a) ensures k in Counts(b) {
      var i :| 0 <= i < |a| && a[i].numeroCartas == k;
      assert a[i] in multiset(b);
    }
    forall k | k in Counts(b) ensures k in Counts(a) {
      var i :| 0 <= i < |b| && b[i].numeroCartas == k;
      assert b[i] in multiset(a);
    }
  }

  /** Grouping the sorted copy gives the same groups as grouping the catalogue itself. */
  lemma GroupsOfSorted(s: seq<Tirada>)
    ensures Groups(SortBy(s, NumCartas)) == Groups(s)
  {
    SortByPermutation(s, NumCartas);
    FilterCountsSame(SortBy(s, NumCartas), s);
    forall k | k in Counts(s)
      ensures Filter(SortBy(s, NumCartas), KeyIs(NumCartas, k)) == Filter(s, KeyIs(NumCartas, k))
    {
      SortByStable(s, NumCartas, k);
    }
  }

  /**
   * Builds the grouped catalogue: sorts a copy of `data` by card count and
   * pushes every layout, in that order, onto the group of its count. `data`
   * itself is left untouched (the method may modify nothing).
   */
  method GroupTiradas(data: array<Tirada>) returns (grouped: map<int, seq<Tirada>>)
    ensures grouped.Keys == Counts(data[..])
    ensures forall k :: k in grouped ==> grouped[k] == Filter(data[..], KeyIs(NumCartas, k))
  {
    var sorted := SortBy(data[..], NumCartas);
    grouped := map[];
    var i := 0;
    while i < |sorted|
      invariant 0 <= i <= |sorted|
      invariant grouped == Pushed(sorted[..i])
    {
      var t := sorted[i];
      ghost var before := grouped;
      if t.numeroCartas !in grouped {
        grouped := grouped[t.numeroCartas := []];
      }
      grouped := grouped[t.numeroCartas := grouped[t.numeroCartas] + [t]];
      assert grouped == Push(before, t);
      PushedStep(sorted, i);
      i := i + 1;
    }
    PushedSorted(data[..], sorted, grouped);
  }

  /** The dictionary after pushing `t` onto the group of its count. */
  function Push(g: map<int, seq<Tirada>>, t: Tirada): map<int, seq<Tirada>>
  {
    g[t.numeroCartas := (if t.numeroCartas in g then g[t.numeroCartas] else []) + [t]]
  }

  /** The dictionary built by pushing the layouts of `s` one by one, from the empty one. */
  function Pushed(s: seq<Tirada>): map<int, seq<Tirada>>
    decreases |s|
  {
    if s == [] then map[] else Push(Pushed(s[..|s| - 1]), s[|s| - 1])
  }

  lemma PushedStep(s: seq<Tirada>, i: nat)
    requires i < |s|
    ensures Pushed(s[..i + 1]) == Push(Pushed(s[..i]), s[i])
  {
    assert s[..i + 1][..i] == s[..i];
  }

  /** Pushing the layouts one by one builds the reference grouping. */
  lemma {:induction false} PushedIsGroups(s: seq<Tirada>)
    ensures Pushed(s) == Groups(s)
    decreases |s|
  {
    if s == [] {
      assert Counts(s) == {};
    } else {
      var init := s[..|s| - 1];
      PushedIsGroups(init);
      assert s == init + [s[|s| - 1]];
      GroupsSnoc(init, s[|s| - 1]);
    }
  }

  lemma PushedSorted(data: seq<Tirada>, sorted: seq<Tirada>, grouped: map<int, seq<Tirada>>)
    requires sorted == SortBy(data, NumCartas) && grouped == Pushed(sorted[..|sorted|])
    ensures grouped.Keys == Counts(data)
    ensures forall k :: k in grouped ==> grouped[k] == Filter(data, KeyIs(NumCartas, k))
  {
    assert sorted[..|sorted|] == sorted;
    PushedIsGroups(sorted);
    GroupsOfSorted(data);
  }

  lemma FilterMultiset(s: seq<Tirada>, p: Tirada -> bool, x: Tirada)
    ensures multiset(Filter(s, p))[x] == if p(x) then multiset(s)[x] else 0
  {
    if s != [] {
      FilterConcat([s[0]], s[1..], p);
      assert s == [s[0]] + s[1..];
      FilterMultiset(s[1..], p, x);
    }
  }

  /**
   * Each layout of the catalogue appears in the group keyed by its own card
   * count, as often as in the catalogue, and in no other group.
   */
  lemma {:induction false} EachLayoutOnce(s: seq<Tirada>, t: Tirada, k: int)
    requires t in s
    requires k in Groups(s)
    ensures t.numeroCartas in Groups(s)
    ensures multiset(Groups(s)[k])[t] == if k == t.numeroCartas then multiset(s)[t] else 0
  {
    var i :| 0 <= i < |s| && s[i] == t;
    assert t.numeroCartas in Counts(s);
    FilterMultiset(s, KeyIs(NumCartas, k), t);
  }

  /** The heading of a group: singular "carta" exactly when the count is one. */
  function Heading(n: int): (r: string)
    ensures HasPrefix(r, "Tiradas de " + IntToString(n) + " ")
    ensures HasSuffix(r, "cartas") <==> n != 1
    ensures n == 1 ==> HasSuffix(r, " carta")
  {
    var r := "Tiradas de " + IntToString(n) + " " + (if n == 1 then "carta" else "cartas");
    assert r[|r| - 1] == if n == 1 then 'a' else 's';
    assert HasSuffix(r, "cartas") ==> r[|r| - 1] == "cartas"[5];
    r
  }

  /** The details line of slot `i` (counted from 0) of the previewed layout. */
  function SlotLine(i: int, p: Posicion): string
  {
    IntToString(i + 1) + ". " + p.nombre + ": " + p.descripcion
  }

  function SlotLines(ps: seq<Posicion>): (r: seq<string>)
    ensures |r| == |ps|
  {
    seq(|ps|, i requires 0 <= i < |ps| => SlotLine(i, ps[i]))
  }

  function HeaderLines(t: Tirada): seq<string>
  {
    ["Tirada: " + t.nombre, "Descripción: " + t.descripcion, "", "Posiciones:"]
  }

  /** The details text: the header lines and one line per slot, each ended by a newline. */
  function DetailsText(t: Tirada): string
  {
    Join(HeaderLines(t) + SlotLines(t.posiciones) + [""], '\n')
  }

  predicate NoNewlines(t: Tirada)
  {
    '\n' !in t.nombre && '\n' !in t.descripcion
    && forall i :: 0 <= i < |t.posiciones| ==>
         '\n' !in t.posiciones[i].nombre && '\n' !in t.posiciones[i].descripcion
  }

  /**
   * Read back line by line, the details text is the name line, the
   * description line, an empty line, "Posiciones:", then "i. nombre:
   * descripcion" for slot i in layout order, and a final empty piece after the
   * closing newline.
   */
  lemma {:induction false} DetailsTextLines(t: Tirada)
    requires NoNewlines(t)
    ensures |Split(DetailsText(t), '\n')| == |t.posiciones| + 5
    ensures Split(DetailsText(t), '\n')[..4] == HeaderLines(t)
    ensures forall i :: 0 <= i < |t.posiciones| ==>
      Split(DetailsText(t), '\n')[4 + i] == SlotLine(i, t.posiciones[i])
    ensures Split(DetailsText(t), '\n')[|t.posiciones| + 4] == ""
  {
    var lines := HeaderLines(t) + SlotLines(t.posiciones) + [""];
    forall i | 0 <= i < |lines| ensures '\n' !in lines[i] {
      if 4 <= i < 4 + |t.posiciones| {
        assert lines[i] == SlotLine(i - 4, t.posiciones[i - 4]);
        SlotLineNoNewline(i - 4, t.posiciones[i - 4]);
      }
    }
    assert Split(DetailsText(t), '\n') == lines by {
      SplitJoin(lines, '\n');
    }
    DetailsLinesShape(t);
  }

  lemma DetailsLinesShape(t: Tirada)
    ensures var lines := HeaderLines(t) + SlotLines(t.posiciones) + [""];
      && |lines| == |t.posiciones| + 5
      && lines[..4] == HeaderLines(t)
      && (forall i :: 0 <= i < |t.posiciones| ==> lines[4 + i] == SlotLine(i, t.posiciones[i]))
      && lines[|t.posiciones| + 4] == ""
  {
    var lines := HeaderLines(t) + SlotLines(t.posiciones) + [""];
    assert lines[..4] == HeaderLines(t);
  }

  lemma SlotLineNoNewline(i: nat, p: Posicion)
    requires '\n' !in p.nombre && '\n' !in p.descripcion
    ensures '\n' !in SlotLine(i, p)
  {
    var d := IntToString(i + 1);
    assert forall j :: 0 <= j < |d| ==> d[j] != '\n';
  }

  /**
   * The layout chooser's own state: the deck chosen with the two deck buttons
   * and the layout being previewed.
   */
  class TiradaSelector {
    var baraja: Baraja
    var seleccionada: Option<Tirada>

    constructor()
      ensures baraja == Tradicional && seleccionada == None
    {
      baraja := Tradicional;
      seleccionada := None;
    }

    method SetBaraja(b: Baraja)
      modifies this
      ensures baraja == b && seleccionada == old(seleccionada)
    {
      baraja := b;
    }

    method HandleTiradaClick(t: Tirada)
      modifies this
      ensures seleccionada == Some(t) && baraja == old(baraja)
    {
      seleccionada := Some(t);
    }

    /**
     * The arguments handed to the page's layout callback: the previewed
     * layout with the chosen deck, and nothing when no layout is previewed.
     */
    method HandleConfirmarTirada() returns (callback: Option<(Tirada, Baraja)>)
      ensures callback.Some? <==> seleccionada.Some?
      ensures callback.Some? ==> callback.value == (seleccionada.value, baraja)
    {
      if seleccionada.Some? {
        callback := Some((seleccionada.value, baraja));
      } else {
        callback := None;
      }
    }

    method HandleCerrarVistaPrevia()
      modifies this
      ensures seleccionada == None && baraja == old(baraja)
    {
      seleccionada := None;
    }

    /**
     * The text put on the clipboard for the previewed layout, built line by
     * line; nothing is copied when no layout is previewed.
     */
    method HandleCopiarDetallesTirada() returns (texto: Option<string>)
      ensures seleccionada.None? ==> texto.None?
      ensures seleccionada.Some? ==> texto == Some(DetailsText(seleccionada.value))
    {
      if seleccionada.None? {
        return None;
      }
      var t := seleccionada.value;
      var s := "Tirada: " + t.nombre + "\n";
      s := s + "Descripción: " + t.descripcion + "\n\n";
      s := s + "Posiciones:\n";
      var h := HeaderLines(t);
      JoinAppend([h[0]], h[1], '\n');
      JoinAppend([h[0], h[1]], h[2], '\n');
      JoinAppend([h[0], h[1], h[2]], h[3], '\n');
      assert [h[0], h[1], h[2]] + [h[3]] == h;
      assert s == Join(h, '\n') + "\n";
      assert h + SlotLines(t.posiciones[..0]) == h;
      var i := 0;
      while i < |t.posiciones|
        invariant 0 <= i <= |t.posiciones|
        invariant s == Join(HeaderLines(t) + SlotLines(t.posiciones[..i]), '\n') + "\n"
      {
        var line := SlotLine(i, t.posiciones[i]);
        JoinAppend(HeaderLines(t) + SlotLines(t.posiciones[..i]), line, '\n');
        assert SlotLines(t.posiciones[..i + 1]) == SlotLines(t.posiciones[..i]) + [line] by {
          assert forall j :: 0 <= j < i ==> t.posiciones[..i + 1][j] == t.posiciones[..i][j];
        }
        assert h + SlotLines(t.posiciones[..i + 1]) == (h + SlotLines(t.posiciones[..i])) + [line];
        s := s + line + "\n";
        i := i + 1;
      }
      assert t.posiciones[..i] == t.posiciones;
      JoinAppend(h + SlotLines(t.posiciones), "", '\n');
      assert Join(h + SlotLines(t.posiciones), '\n') + ['\n'] + "" == s;
      texto := Some(s);
    }
  }
}
